/** The landing screen's `Typewriter` (`frontend/parrot/app/index.tsx`): an effect that types the current line
    one character every 60 ms, pauses 1200 ms, deletes it one character every
    30 ms, waits 400 ms and moves on to the next of four lines; and a cursor
    that blinks every 500 ms. Each effect run schedules one timeout; `Step`
    returns the delay and the state its callback produces. */
module Typewriter {

  const Lines: seq<string> := [
    "Your personal knowledge base",
    "Remembering everything",
    "24/7 Real-Time Database",
    "Your 2nd Brain"
  ]

  const TypeDelay: nat := 60
  const PauseDelay: nat := 1200
  const DeleteDelay: nat := 30
  const NextLineDelay: nat := 400
  const CursorInterval: nat := 500

  /** `lineIdx` only ever holds `(prev + 1) % typewriterLines.length`, starting from 0. */
  type LineIndex = i: nat | i < 4

  datatype State = State(lineIdx: LineIndex, displayed: string, typing: bool)

  const Initial := State(0, "", true)

  /** The invariant: what is shown is a prefix of the current line. */
  predicate Shown(s: State) {
    s.displayed <= Lines[s.lineIdx]
  }

  /** `line.slice(0, n)` for `n >= 0`: JavaScript clamps an end past the string. */
  function Slice(line: string, n: nat): (r: string)
    ensures r <= line
    ensures |r| == if n <= |line| then n else |line|
  {
    if n <= |line| then line[..n] else line
  }

  datatype Scheduled = Scheduled(delay: nat, next: State)

  /** One run of the typing effect followed by its timeout firing. */
  function Step(s: State): (r: Scheduled)
    // what is shown stays a prefix of the current line
    ensures Shown(s) ==> Shown(r.next)
    // the line changes only once everything is deleted, and then typing resumes on the next one
    ensures r.next.lineIdx != s.lineIdx ==>
      !s.typing && s.displayed == "" && r.next == State((s.lineIdx + 1) % |Lines|, "", true)
  {
    var line := Lines[s.lineIdx];
    if s.typing then
      if |s.displayed| < |line| then Scheduled(TypeDelay, s.(displayed := Slice(line, |s.displayed| + 1)))
      else Scheduled(PauseDelay, s.(typing := false))
    else if |s.displayed| > 0 then
      Scheduled(DeleteDelay, s.(displayed := Slice(line, |s.displayed| - 1)))
    else Scheduled(NextLineDelay, State((s.lineIdx + 1) % |Lines|, s.displayed, true))
  }

  /** What one step does to the text, the mode and the line, and how long it waits. */
  lemma StepSpec(s: State)
    // whatever was shown, a changed text is a prefix of its line
    ensures Step(s).next.displayed != s.displayed ==> Step(s).next.displayed <= Lines[Step(s).next.lineIdx]
    ensures Shown(s) ==> Shown(Step(s).next)
    // typing a line that is not complete shows one more of its characters
    ensures s.typing && |s.displayed| < |Lines[s.lineIdx]| ==>
      && Step(s).delay == TypeDelay && Step(s).next.typing && Step(s).next.lineIdx == s.lineIdx
      && |Step(s).next.displayed| == |s.displayed| + 1
      && (Shown(s) ==> Step(s).next.displayed == s.displayed + [Lines[s.lineIdx][|s.displayed|]])
    // a complete line pauses, then switches to deleting without changing the text
    ensures s.typing && |s.displayed| >= |Lines[s.lineIdx]| ==>
      Step(s).delay == PauseDelay && Step(s).next == s.(typing := false)
    // deleting a non-empty text removes its last character
    ensures !s.typing && |s.displayed| > 0 && Shown(s) ==>
      && Step(s).delay == DeleteDelay && !Step(s).next.typing && Step(s).next.lineIdx == s.lineIdx
      && Step(s).next.displayed == s.displayed[..|s.displayed| - 1]
    // the line only changes once everything is deleted
    ensures Step(s).next.lineIdx != s.lineIdx ==> !s.typing && s.displayed == ""
    ensures !s.typing && s.displayed == "" ==>
      Step(s).delay == NextLineDelay && Step(s).next == State((s.lineIdx + 1) % |Lines|, "", true)
  {
    var line := Lines[s.lineIdx];
    if s.typing && |s.displayed| < |line| && s.displayed <= line {
      assert line[..|s.displayed| + 1] == s.displayed + [line[|s.displayed|]];
    }
  }

  datatype Trace = Trace(state: State, elapsed: nat)

  /** `n` steps of some step function and the time they take. */
  function Iterate(step: State -> Scheduled, s: State, n: nat): Trace
    decreases n
  {
    if n == 0 then Trace(s, 0)
    else
      var rest := Iterate(step, step(s).next, n - 1);
      Trace(rest.state, step(s).delay + rest.elapsed)
  }

  /** `n` steps of the effect. */
  function Run(s: State, n: nat): Trace {
    Iterate(Step, s, n)
  }

  lemma {:induction false} IterateAppend(step: State -> Scheduled, s: State, a: nat, b: nat)
    ensures Iterate(step, s, a + b).state == Iterate(step, Iterate(step, s, a).state, b).state
    ensures Iterate(step, s, a + b).elapsed == Iterate(step, s, a).elapsed + Iterate(step, Iterate(step, s, a).state, b).elapsed
    decreases a
  {
    if a > 0 {
      IterateAppend(step, step(s).next, a - 1, b);
      assert a + b - 1 == (a - 1) + b;
    }
  }

  /** One step, then the rest. */
  lemma RunUnfold(s: State, n: nat)
    requires n > 0
    ensures Run(s, n) == Trace(Run(Step(s).next, n - 1).state, Step(s).delay + Run(Step(s).next, n - 1).elapsed)
  {
  }

  /** Two runs back to back. */
  lemma RunThen(s: State, a: nat, mid: Trace, b: nat, last: Trace)
    requires Run(s, a) == mid && Run(mid.state, b) == last
    ensures Run(s, a + b) == Trace(last.state, mid.elapsed + last.elapsed)
  {
    IterateAppend(Step, s, a, b);
  }

  /** Every state the landing screen reaches shows a prefix of its line. */
  lemma {:induction false} AlwaysShown(s: State, n: nat)
    requires Shown(s)
    ensures Shown(Run(s, n).state)
    decreases n
  {
    if n > 0 {
      StepSpec(s);
      AlwaysShown(Step(s).next, n - 1);
    }
  }

  lemma InitialShown()
    ensures Shown(Initial)
  {
  }

  /** Typing from `k` characters to the full line takes `|line| - k` steps of 60 ms. */
  lemma {:induction false} TypeOut(i: LineIndex, k: nat)
    requires k <= |Lines[i]|
    ensures Run(State(i, Lines[i][..k], true), |Lines[i]| - k)
            == Trace(State(i, Lines[i], true), TypeDelay * (|Lines[i]| - k))
    decreases |Lines[i]| - k
  {
    if k == |Lines[i]| {
      assert Lines[i][..k] == Lines[i];
    } else {
      var s := State(i, Lines[i][..k], true);
      StepSpec(s);
      assert Step(s).next == State(i, Lines[i][..k + 1], true);
      TypeOut(i, k + 1);
    }
  }

  /** Deleting `k` shown characters takes `k` steps of 30 ms. */
  lemma {:induction false} DeleteOut(i: LineIndex, k: nat)
    requires k <= |Lines[i]|
    ensures Run(State(i, Lines[i][..k], false), k) == Trace(State(i, "", false), DeleteDelay * k)
    decreases k
  {
    if k > 0 {
      var s := State(i, Lines[i][..k], false);
      StepSpec(s);
      assert Step(s).next == State(i, Lines[i][..k - 1], false);
      DeleteOut(i, k - 1);
    }
  }

  /** A fully typed line pauses 1200 ms and switches to deleting. */
  lemma PauseStep(i: LineIndex)
    ensures Run(State(i, Lines[i], true), 1) == Trace(State(i, Lines[i], false), PauseDelay)
  {
    RunUnfold(State(i, Lines[i], true), 1);
  }

  /** An emptied line waits 400 ms and the next line starts. */
  lemma NextLineStep(i: LineIndex)
    ensures Run(State(i, "", false), 1) == Trace(State((i + 1) % |Lines|, "", true), NextLineDelay)
  {
    RunUnfold(State(i, "", false), 1);
  }

  /** One full cycle: from an empty line being typed, `2|line| + 2` steps and
      `90|line| + 1600` ms later the next line starts empty. */
  lemma Cycle(i: LineIndex)
    ensures Run(State(i, "", true), 2 * |Lines[i]| + 2)
            == Trace(State((i + 1) % |Lines|, "", true), (TypeDelay + DeleteDelay) * |Lines[i]| + PauseDelay + NextLineDelay)
  {
    var n := |Lines[i]|;
    var s0 := State(i, "", true);
    var typed := Trace(State(i, Lines[i], true), TypeDelay * n);
    var paused := Trace(State(i, Lines[i], false), PauseDelay);
    var emptied := Trace(State(i, "", false), DeleteDelay * n);
    var next := Trace(State((i + 1) % |Lines|, "", true), NextLineDelay);
    assert Lines[i][..0] == "" && Lines[i][..n] == Lines[i];
    TypeOut(i, 0);
    PauseStep(i);
    DeleteOut(i, n);
    NextLineStep(i);
    RunThen(s0, n, typed, 1, paused);
    RunThen(s0, n + 1, Trace(paused.state, typed.elapsed + paused.elapsed), n, emptied);
    RunThen(s0, 2 * n + 1, Trace(emptied.state, typed.elapsed + paused.elapsed + emptied.elapsed), 1, next);
  }

  /** One tick of the 500 ms cursor interval. */
  function ToggleCursor(visible: bool): (r: bool)
    ensures r != visible
  {
    !visible
  }

  function CursorAfter(visible: bool, ticks: nat): bool
    decreases ticks
  {
    if ticks == 0 then visible else CursorAfter(ToggleCursor(visible), ticks - 1)
  }

  /** The cursor is back where it began after an even number of ticks and
      opposite after an odd number. */
  lemma {:induction false} CursorParity(visible: bool, ticks: nat)
    ensures CursorAfter(visible, ticks) == (if ticks % 2 == 0 then visible else !visible)
    decreases ticks
  {
    if ticks > 0 {
      CursorParity(!visible, ticks - 1);
    }
  }

  /** A cursor that starts visible is shown during the first `CursorInterval`
      ms of every `2 * CursorInterval` ms and hidden during the second. */
  lemma CursorBlinks(elapsed: nat)
    ensures CursorAfter(true, elapsed / CursorInterval) <==> elapsed % (2 * CursorInterval) < CursorInterval
  {
    var ticks := elapsed / CursorInterval;
    CursorParity(true, ticks);
    var q, r := elapsed / 1000, elapsed % 1000;
    assert elapsed == 1000 * q + r;
    assert ticks == 2 * q + r / 500;
  }
}
