/** The learn-it step: a non-empty list of chunks with a cursor. The step shows
    its current chunk by mirroring the chunk's screen, vocabulary,
    interaction, feedback and character prompt onto itself. */
module LearnItStep {
  import opened JsValues
  import opened Errors
  import opened LessonStep
  import Paging

  datatype LearnIt = LearnIt(
    base: StepBase,
    chunks: seq<Value>,
    currentChunkIndex: nat,
    currentChunk: Value,
    screen: Value,
    interaction: Value,
    feedback: Value)

  const Tag := "learn-it"

  /** Moving the cursor to chunk `i` and mirroring that chunk onto the step. */
  function ShowChunk(l: LearnIt, i: nat): LearnIt
    requires i < |l.chunks|
  {
    var c := l.chunks[i];
    l.(currentChunkIndex := i,
       currentChunk := c,
       screen := Get(c, "screen"),
       interaction := Get(c, "interaction"),
       feedback := Get(c, "feedback"),
       base := l.base.(vocabulary := Get(c, "vocabulary"), characterPrompt := Get(c, "characterPrompt")))
  }

  /** The step shows the chunk under its cursor. */
  predicate Mirrors(l: LearnIt) {
    && l.currentChunkIndex < |l.chunks|
    && l.currentChunk == l.chunks[l.currentChunkIndex]
    && l.screen == Get(l.currentChunk, "screen")
    && l.base.vocabulary == Get(l.currentChunk, "vocabulary")
    && l.interaction == Get(l.currentChunk, "interaction")
    && l.feedback == Get(l.currentChunk, "feedback")
    && l.base.characterPrompt == Get(l.currentChunk, "characterPrompt")
  }

  predicate Valid(l: LearnIt) {
    && |l.chunks| > 0
    && (forall i :: 0 <= i < |l.chunks| ==> !Nullish(l.chunks[i]))
    && Mirrors(l)
  }

  /** What navigation never changes: the chunks and the step's own fields. */
  predicate SameContent(a: LearnIt, b: LearnIt) {
    && a.chunks == b.chunks
    && a.base.id == b.base.id
    && a.base.title == b.base.title
    && a.base.goal == b.base.goal
    && a.base.transition == b.base.transition
  }

  /** `new LearnItStep(config)`: the base checks, then at least one chunk; the
      step starts on the first chunk. A null first chunk throws on the mirror
      read. A null chunk further on is reported as `Unmodelled` rather than
      built: the constructor accepts it and only a later move onto it
      throws. */
  function New(config: Value): (r: Result<LearnIt>)
    requires !Nullish(config)
    ensures NewBase(config).Err? ==> r == Err(NewBase(config).error)
    ensures NewBase(config).Ok? && ListField(config, "chunks") == Ok([]) ==> r == Err(NoChunks)
    ensures (&& NewBase(config).Ok? && ListField(config, "chunks").Ok? && |ListField(config, "chunks").value| > 0
             && Nullish(ListField(config, "chunks").value[0])) ==> r == Err(TypeError)
    ensures r.Ok? <==>
              && NewBase(config).Ok?
              && ListField(config, "chunks").Ok?
              && |ListField(config, "chunks").value| > 0
              && forall i :: 0 <= i < |ListField(config, "chunks").value| ==> !Nullish(ListField(config, "chunks").value[i])
    ensures r.Ok? ==>
              && Valid(r.value)
              && r.value.chunks == ListField(config, "chunks").value
              && r.value.currentChunkIndex == 0
              && r.value.currentChunk == r.value.chunks[0]
              && r.value.base.id == Get(config, "id")
              && r.value.base.title == Get(config, "title")
              && r.value.base.goal == Get(config, "goal")
              && r.value.base.transition == NewBase(config).value.transition
  {
    var base :- NewBase(config);
    var chunks :- ListField(config, "chunks");
    if |chunks| == 0 then Err(NoChunks)
    else if Nullish(chunks[0]) then Err(TypeError)
    else if exists i :: 0 <= i < |chunks| && Nullish(chunks[i]) then Err(Unmodelled("null chunk"))
    else Ok(ShowChunk(LearnIt(base, chunks, 0, Undefined, Undefined, Undefined, Undefined), 0))
  }

  /** `nextChunk()` */
  function NextChunk(l: LearnIt): (r: Paging.Moved<LearnIt>)
    requires Valid(l)
    ensures Valid(r.state) && SameContent(l, r.state)
    ensures r.moved <==> l.currentChunkIndex < |l.chunks| - 1
    ensures r.moved ==> r.state.currentChunkIndex == l.currentChunkIndex + 1
    ensures !r.moved ==> r.state == l
  {
    var m := Paging.Next(l.currentChunkIndex, |l.chunks|);
    if m.moved then Paging.Moved(true, ShowChunk(l, m.state)) else Paging.Moved(false, l)
  }

  /** `previousChunk()` */
  function PreviousChunk(l: LearnIt): (r: Paging.Moved<LearnIt>)
    requires Valid(l)
    ensures Valid(r.state) && SameContent(l, r.state)
    ensures r.moved <==> l.currentChunkIndex > 0
    ensures r.moved ==> r.state.currentChunkIndex + 1 == l.currentChunkIndex
    ensures !r.moved ==> r.state == l
  {
    var m := Paging.Previous(l.currentChunkIndex, |l.chunks|);
    if m.moved then Paging.Moved(true, ShowChunk(l, m.state)) else Paging.Moved(false, l)
  }

  /** Moving straight to the last chunk, as the lesson manager does when it
      steps back into a learn-it step. */
  function ShowLastChunk(l: LearnIt): (r: LearnIt)
    requires Valid(l)
    ensures Valid(r) && SameContent(l, r)
    ensures r.currentChunkIndex == |l.chunks| - 1
  {
    ShowChunk(l, |l.chunks| - 1)
  }

  predicate IsFirstChunk(l: LearnIt) {
    l.currentChunkIndex == 0
  }

  predicate IsLastChunk(l: LearnIt) {
    l.currentChunkIndex == |l.chunks| - 1
  }

  /** `getCurrentChunk()` */
  function GetCurrentChunk(l: LearnIt): (r: Value)
    requires Valid(l)
    ensures r == l.chunks[l.currentChunkIndex]
  {
    l.currentChunk
  }

  /** `getCurrentTitle()` */
  function GetCurrentTitle(l: LearnIt): (r: Value)
    requires Valid(l)
    ensures r == Get(l.chunks[l.currentChunkIndex], "title")
  {
    Get(l.currentChunk, "title")
  }

  /** `getSubType()`: the current chunk's id. */
  function GetSubType(l: LearnIt): (r: Value)
    requires Valid(l)
    ensures r == Get(l.chunks[l.currentChunkIndex], "id")
  {
    Get(l.currentChunk, "id")
  }

  /** `validate()`: chunks are required, and the first must have a screen. */
  function Validate(l: LearnIt): (r: Result<bool>)
    ensures r.Ok? ==> r.value
    ensures |l.chunks| == 0 ==> r == Err(NoChunks)
    ensures Valid(l) ==> (r.Ok? <==> Truthy(Get(l.chunks[0], "screen")))
    ensures Valid(l) && r.Err? ==> r.error == FirstChunkWithoutScreen
  {
    if |l.chunks| == 0 then Err(NoChunks)
    else if Nullish(l.chunks[0]) then Err(TypeError)
    else if !Truthy(Get(l.chunks[0], "screen")) then Err(FirstChunkWithoutScreen)
    else Ok(true)
  }

  /** A valid step is determined by its content and its cursor: the mirrored
      fields follow from the cursor. */
  lemma {:induction false} DeterminedByCursor(a: LearnIt, b: LearnIt)
    requires Valid(a) && Valid(b) && SameContent(a, b)
    requires a.currentChunkIndex == b.currentChunkIndex
    ensures a == b
  {
    assert a.base == b.base;
  }

  /** The boundary queries say exactly when the cursor cannot move. */
  lemma BoundariesStopMoves(l: LearnIt)
    requires Valid(l)
    ensures IsFirstChunk(l) <==> !PreviousChunk(l).moved
    ensures IsLastChunk(l) <==> !NextChunk(l).moved
  {
  }

  /** A successful `nextChunk()` followed by `previousChunk()` restores the
      cursor and every mirrored field; the other way round likewise. */
  lemma {:induction false} NextThenPrevious(l: LearnIt)
    requires Valid(l)
    ensures NextChunk(l).moved ==> PreviousChunk(NextChunk(l).state) == Paging.Moved(true, l)
    ensures PreviousChunk(l).moved ==> NextChunk(PreviousChunk(l).state) == Paging.Moved(true, l)
  {
    if NextChunk(l).moved {
      DeterminedByCursor(PreviousChunk(NextChunk(l).state).state, l);
    }
    if PreviousChunk(l).moved {
      DeterminedByCursor(NextChunk(PreviousChunk(l).state).state, l);
    }
  }

  /** `k` calls of `nextChunk()`: whether every call moved, and the step after. */
  function NextChunkTimes(l: LearnIt, k: nat): (r: Paging.Moved<LearnIt>)
    requires Valid(l)
    ensures Valid(r.state) && SameContent(l, r.state)
    decreases k
  {
    if k == 0 then Paging.Moved(true, l)
    else
      var first := NextChunk(l);
      var rest := NextChunkTimes(first.state, k - 1);
      Paging.Moved(first.moved && rest.moved, rest.state)
  }

  /** From any chunk, one call of `nextChunk()` per chunk ahead: every call
      moves and the last chunk is reached; one more returns false and
      changes nothing. */
  lemma {:induction false} WalkToLastChunk(l: LearnIt)
    requires Valid(l)
    ensures var walk := NextChunkTimes(l, |l.chunks| - 1 - l.currentChunkIndex);
            && walk.moved
            && IsLastChunk(walk.state)
            && NextChunk(walk.state) == Paging.Moved(false, walk.state)
    decreases |l.chunks| - l.currentChunkIndex
  {
    if l.currentChunkIndex < |l.chunks| - 1 {
      WalkToLastChunk(NextChunk(l).state);
    }
  }
}
