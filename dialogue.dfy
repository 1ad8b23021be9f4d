/**
 * The dialogue box of `UIManager` as values: the typewriter coroutine is a
 * `Run` that one resumption advances by one step (one letter, then the
 * lingering wait, then the clean-up).
 */
module Dialogue {
  import opened Wrappers

  /** Where a running dialogue coroutine is suspended. */
  datatype Run =
    | Typing(line: string, typed: nat)  // after typing `typed` letters of `line`
    | Lingering(line: string)           // waiting with the whole line shown

  /** The running coroutine (its handle is set exactly while it runs) and what the box shows. */
  datatype Speech = Speech(run: Option<Run>, text: string, panelActive: bool, visible: bool)

  const Hidden := Speech(None, "", false, false)

  /** What the box shows agrees with where the coroutine is suspended. */
  ghost predicate Typed(s: Speech) {
    match s.run
    case None => true
    case Some(Typing(line, n)) => 1 <= n <= |line| && s.text == line[..n] && s.panelActive && s.visible
    case Some(Lingering(line)) => s.text == line && s.panelActive && s.visible
  }

  /**
   * `ShowDialogue`: stops the running coroutine and starts a new one, which
   * runs up to its first wait at once. Without the panel or the text
   * component (`ready` false) the new coroutine ends at once.
   */
  function Show(s: Speech, line: string, ready: bool): (r: Speech)
    ensures Typed(r)
    ensures ready <==> r.run.Some?
    ensures ready ==> r.panelActive && r.visible && r.text == line[..if line == [] then 0 else 1]
    ensures !ready ==> r == s.(run := None)
  {
    if !ready then s.(run := None)
    else if line == [] then Speech(Some(Lingering(line)), "", true, true)
    else Speech(Some(Typing(line, 1)), line[..1], true, true)
  }

  /** One resumption of the dialogue coroutine after its wait. */
  function Resume(s: Speech): Speech {
    match s.run
    case None => s
    case Some(Typing(line, n)) =>
      if n < |line| then s.(run := Some(Typing(line, n + 1)), text := s.text + [line[n]])
      else s.(run := Some(Lingering(line)))
    case Some(Lingering(_)) => Hidden
  }

  /**
   * `HideDialogue`: stops the coroutine and hides the box. With a panel but
   * no text component it fails on the missing text component after the
   * coroutine is stopped; `completed` is false exactly then.
   */
  function Hide(s: Speech, hasPanel: bool, hasText: bool): (r: (Speech, bool))
    ensures r.0.run.None?
    ensures r.1 <==> !hasPanel || hasText
    ensures hasPanel && hasText ==> r.0 == Hidden
    ensures !(hasPanel && hasText) ==> r.0 == s.(run := None)
  {
    if !hasPanel then (s.(run := None), true)
    else if !hasText then (s.(run := None), false)
    else (Hidden, true)
  }

  function Resumes(s: Speech, k: nat): Speech
    decreases k
  {
    if k == 0 then s else Resumes(Resume(s), k - 1)
  }

  /** Every resumption keeps the shown text in step with the coroutine. */
  lemma ResumeKeepsTyped(s: Speech)
    requires Typed(s)
    ensures Typed(Resume(s))
  {
    match s.run
    case None =>
    case Some(Typing(line, n)) =>
      if n < |line| {
        assert line[..n] + [line[n]] == line[..n + 1];
      }
    case Some(Lingering(_)) =>
  }

  lemma {:induction false} ResumesLast(s: Speech, k: nat)
    ensures Resumes(s, k + 1) == Resume(Resumes(s, k))
    decreases k
  {
    if k > 0 {
      ResumesLast(Resume(s), k - 1);
    }
  }

  /** While typing, each resumption reveals exactly one more letter of the line. */
  lemma {:induction false} TypingProgress(s: Speech, k: nat)
    requires Typed(s) && s.run.Some? && s.run.value.Typing?
    requires s.run.value.typed + k <= |s.run.value.line|
    ensures var line, n := s.run.value.line, s.run.value.typed;
      Resumes(s, k) == Speech(Some(Typing(line, n + k)), line[..n + k], true, true)
    decreases k
  {
    var line, n := s.run.value.line, s.run.value.typed;
    if k > 0 {
      assert line[..n] + [line[n]] == line[..n + 1];
      TypingProgress(Resume(s), k - 1);
    }
  }

  /** After `k - 1` resumptions the box shows the first `k` letters of the line. */
  lemma TypewriterShowsPrefix(s: Speech, line: string, k: nat)
    requires 0 < k <= |line|
    ensures Resumes(Show(s, line, true), k - 1) == Speech(Some(Typing(line, k)), line[..k], true, true)
  {
    TypingProgress(Show(s, line, true), k - 1);
  }

  /**
   * The whole line is shown after as many resumptions as it has letters,
   * and one resumption later the box is hidden and the coroutine is over.
   */
  lemma DialogueLingersThenHides(s: Speech, line: string)
    ensures Resumes(Show(s, line, true), |line|) == Speech(Some(Lingering(line)), line, true, true)
    ensures Resumes(Show(s, line, true), |line| + 1) == Hidden
  {
    var start := Show(s, line, true);
    if line != [] {
      TypewriterShowsPrefix(s, line, |line|);
      ResumesLast(start, |line| - 1);
      assert line[..|line|] == line;
    }
    ResumesLast(start, |line|);
  }

  /** Without the panel or the text component a dialogue never shows anything. */
  lemma {:induction false} UnreadyDialogueShowsNothing(s: Speech, line: string, k: nat)
    ensures Resumes(Show(s, line, false), k) == s.(run := None)
    decreases k
  {
    if k > 0 {
      UnreadyDialogueShowsNothing(s, line, k - 1);
      ResumesLast(Show(s, line, false), k - 1);
    }
  }
}
