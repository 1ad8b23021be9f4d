/**
 * The objective list of `UIManager` as values: a duplicate-free list of
 * objective strings in the order they were set, and the text shown for it.
 */
module Objectives {
  import opened Wrappers
  import opened Lists

  /** `SetObjective`: appends the objective unless it is already listed. */
  function WithObjective(objectives: seq<string>, o: string): (r: seq<string>)
    ensures o in r && (forall x :: x in r <==> x in objectives || x == o)
  {
    if o in objectives then objectives else objectives + [o]
  }

  /** `ObjectiveDone`: takes the objective off the list if it is there. */
  function WithoutObjective(objectives: seq<string>, o: string): (r: seq<string>)
    ensures |r| == if o in objectives then |objectives| - 1 else |objectives|
  {
    RemoveFirst(objectives, o)
  }

  /** `x` is listed before `y`. */
  predicate Before(s: seq<string>, x: string, y: string) {
    x in s && y in s && IndexOf(s, x) < IndexOf(s, y)
  }

  /** The first occurrence is the only index holding `x` with no earlier `x`. */
  lemma IndexOfUnique<T>(s: seq<T>, x: T, i: nat)
    requires i < |s| && s[i] == x && x !in s[..i]
    ensures IndexOf(s, x) == i
  {
    var k := IndexOf(s, x);
    NotInPrefix(s, x, k);
    NotInPrefix(s, x, i);
  }

  /** No index of a prefix without `x` holds `x`. */
  lemma NotInPrefix<T>(s: seq<T>, x: T, n: nat)
    requires n <= |s| && x !in s[..n]
    ensures forall j :: 0 <= j < n ==> s[j] != x
  {
    forall j | 0 <= j < n
      ensures s[j] != x
    {
      assert s[..n][j] == s[j];
    }
  }

  lemma SetObjectiveKeepsDuplicateFree(objectives: seq<string>, o: string)
    requires NoDup(objectives)
    ensures NoDup(WithObjective(objectives, o))
  {
    if o !in objectives {
      AppendFreshNoDup(objectives, o);
    }
  }

  /** Setting an objective keeps the order of those already listed, and a new one comes last. */
  lemma SetObjectiveKeepsOrder(objectives: seq<string>, o: string, x: string, y: string)
    requires x in objectives && y in objectives
    ensures Before(WithObjective(objectives, o), x, y) <==> Before(objectives, x, y)
    ensures o !in objectives ==> IndexOf(WithObjective(objectives, o), o) == |objectives|
  {
    var r := WithObjective(objectives, o);
    if o !in objectives {
      var i, j := IndexOf(objectives, x), IndexOf(objectives, y);
      assert r[..i] == objectives[..i] && r[..j] == objectives[..j];
      IndexOfUnique(r, x, i);
      IndexOfUnique(r, y, j);
      assert r[..|objectives|] == objectives;
      IndexOfUnique(r, o, |objectives|);
    }
  }

  /** Where an objective that stays on the list moves when `o` is removed. */
  lemma IndexAfterRemoval(objectives: seq<string>, o: string, x: string)
    requires o in objectives && x in objectives && x != o
    ensures var k := IndexOf(objectives, o);
      var i := IndexOf(objectives, x);
      x in WithoutObjective(objectives, o)
      && IndexOf(WithoutObjective(objectives, o), x) == if i < k then i else i - 1
  {
    var r := WithoutObjective(objectives, o);
    var k, i := IndexOf(objectives, o), IndexOf(objectives, x);
    var j := if i < k then i else i - 1;
    assert r == objectives[..k] + objectives[k + 1..];
    assert r[j] == x;
    NotInPrefix(objectives, x, i);
    forall m | 0 <= m < j
      ensures r[..j][m] != x
    {
      assert r[m] == objectives[if m < k then m else m + 1];
    }
    IndexOfUnique(r, x, j);
  }

  /** Marking an objective done keeps the order of the others. */
  lemma ObjectiveDoneKeepsOrder(objectives: seq<string>, o: string, x: string, y: string)
    requires x in objectives && y in objectives && x != o && y != o
    ensures Before(WithoutObjective(objectives, o), x, y) <==> Before(objectives, x, y)
  {
    if o in objectives {
      IndexAfterRemoval(objectives, o, x);
      IndexAfterRemoval(objectives, o, y);
    }
  }

  /** Marking an objective done removes it for good and leaves every other one listed. */
  lemma ObjectiveDoneRemoves(objectives: seq<string>, o: string)
    requires NoDup(objectives)
    ensures var r := WithoutObjective(objectives, o);
      NoDup(r) && o !in r && (forall x :: x in r <==> x in objectives && x != o)
  {
    if o in objectives {
      RemoveFirstNoDup(objectives, o);
    }
  }

  /** Setting an objective and marking it done restores a list that did not have it. */
  lemma SetThenDone(objectives: seq<string>, o: string)
    requires o !in objectives
    ensures WithoutObjective(WithObjective(objectives, o), o) == objectives
  {
    var r := objectives + [o];
    assert r[..|objectives|] == objectives;
    IndexOfUnique(r, o, |objectives|);
    assert r[..IndexOf(r, o)] + r[IndexOf(r, o) + 1..] == objectives;
  }

  // ---------------------------------------------------------------------------
  // The display text

  const Header: string := "Objectives:\n"
  const Bullet: string := "\U{2022} "

  function Line(o: string): string {
    Bullet + o + "\n"
  }

  function Lines(objectives: seq<string>): string
    decreases |objectives|
  {
    if objectives == [] then "" else Line(objectives[0]) + Lines(objectives[1..])
  }

  /** The text `UpdateObjectiveDisplay` writes: the header, then one bullet line per objective. */
  function Display(objectives: seq<string>): string {
    Header + Lines(objectives)
  }

  /** The accumulator of the display loop grows by one line per objective. */
  lemma {:induction false} LinesAppend(objectives: seq<string>, o: string)
    ensures Lines(objectives + [o]) == Lines(objectives) + Line(o)
    decreases |objectives|
  {
    if objectives == [] {
      assert [o][1..] == [];
    } else {
      assert (objectives + [o])[1..] == objectives[1..] + [o];
      LinesAppend(objectives[1..], o);
    }
  }

  /** Reads back bullet lines: each line must start with the bullet and end with a newline. */
  function ParseLines(s: string): Option<seq<string>>
    decreases |s|
  {
    if s == [] then Some([])
    else if |s| < |Bullet| || s[..|Bullet|] != Bullet then None
    else
      var rest := s[|Bullet|..];
      if '\n' !in rest then None
      else
        var i := IndexOf(rest, '\n');
        match ParseLines(rest[i + 1..])
        case None => None
        case Some(tail) => Some([rest[..i]] + tail)
  }

  /** Reads back the objectives from a display text. */
  function ParseDisplay(text: string): Option<seq<string>> {
    if |text| < |Header| || text[..|Header|] != Header then None
    else ParseLines(text[|Header|..])
  }

  lemma {:induction false} ParseLinesRoundTrip(objectives: seq<string>)
    requires forall o :: o in objectives ==> '\n' !in o
    ensures ParseLines(Lines(objectives)) == Some(objectives)
    decreases |objectives|
  {
    if objectives != [] {
      var o := objectives[0];
      var s := Lines(objectives);
      var rest := o + "\n" + Lines(objectives[1..]);
      assert s == Bullet + rest;
      assert s[..|Bullet|] == Bullet && s[|Bullet|..] == rest;
      assert rest[|o|] == '\n';
      assert rest[..|o|] == o;
      IndexOfUnique(rest, '\n', |o|);
      assert rest[|o| + 1..] == Lines(objectives[1..]);
      assert objectives[1..] == objectives[1..];
      ParseLinesRoundTrip(objectives[1..]);
      assert [o] + objectives[1..] == objectives;
    }
  }

  /**
   * The display shows exactly the active objectives, in order: reading it
   * back gives the list, as long as no objective contains a newline.
   */
  lemma DisplayRoundTrip(objectives: seq<string>)
    requires forall o :: o in objectives ==> '\n' !in o
    ensures ParseDisplay(Display(objectives)) == Some(objectives)
  {
    var text := Display(objectives);
    assert text[..|Header|] == Header && text[|Header|..] == Lines(objectives);
    ParseLinesRoundTrip(objectives);
  }
}

/**
 * The objective panel of `UIManager`: the list, the text component's
 * contents, whether the panel is active, and how many fade-outs are still
 * running (each ends by deactivating the panel).
 */
module ObjectiveBoard {
  import opened Lists
  import opened Objectives

  datatype Board = Board(objectives: seq<string>, text: string, panelActive: bool, fadeOuts: nat)

  /** Which scene references are set; a panel always has a canvas group. */
  datatype Wiring = Wiring(hasText: bool, hasPanel: bool)

  /** What is listed and nothing else is on the text component while the list is non-empty. */
  ghost predicate Shown(b: Board, w: Wiring) {
    NoDup(b.objectives) && (w.hasText && b.objectives != [] ==> b.text == Display(b.objectives))
  }

  function Refresh(b: Board, w: Wiring): Board {
    if w.hasText then b.(text := Display(b.objectives)) else b
  }

  /** `SetObjective`: a new objective is appended, displayed and faded in. */
  function SetObjective(b: Board, o: string, w: Wiring): (r: Board)
    ensures r.objectives == WithObjective(b.objectives, o)
    ensures o !in b.objectives ==> r.panelActive == (b.panelActive || w.hasPanel)
    ensures o in b.objectives ==> r == b
  {
    if o in b.objectives then b
    else Refresh(b.(objectives := b.objectives + [o]), w).(panelActive := b.panelActive || w.hasPanel)
  }

  /** `ObjectiveDone`: the objective is removed; the last one starts a fade-out instead of a refresh. */
  function ObjectiveDone(b: Board, o: string, w: Wiring): (r: Board)
    ensures r.objectives == WithoutObjective(b.objectives, o)
    ensures r.fadeOuts == if o in b.objectives && r.objectives == [] && w.hasPanel then b.fadeOuts + 1 else b.fadeOuts
    ensures r.panelActive == b.panelActive
  {
    if o !in b.objectives then b
    else
      var rest := RemoveFirst(b.objectives, o);
      if rest == [] then b.(objectives := [], fadeOuts := if w.hasPanel then b.fadeOuts + 1 else b.fadeOuts)
      else Refresh(b.(objectives := rest), w)
  }

  /** `ClearAllObjectives`: empties the list and always starts a fade-out. */
  function ClearAll(b: Board, w: Wiring): (r: Board)
    ensures r.objectives == [] && r.text == b.text && r.panelActive == b.panelActive
    ensures r.fadeOuts == if w.hasPanel then b.fadeOuts + 1 else b.fadeOuts
  {
    b.(objectives := [], fadeOuts := if w.hasPanel then b.fadeOuts + 1 else b.fadeOuts)
  }

  /** The end of the oldest running fade-out. */
  function FadeOutEnds(b: Board): (r: Board)
    ensures b.fadeOuts > 0 ==> !r.panelActive && r.fadeOuts == b.fadeOuts - 1
    ensures b.fadeOuts == 0 ==> r == b
  {
    if b.fadeOuts == 0 then b else b.(panelActive := false, fadeOuts := b.fadeOuts - 1)
  }

  lemma SetObjectiveKeepsShown(b: Board, o: string, w: Wiring)
    requires Shown(b, w)
    ensures Shown(SetObjective(b, o, w), w)
  {
    SetObjectiveKeepsDuplicateFree(b.objectives, o);
  }

  lemma ObjectiveDoneKeepsShown(b: Board, o: string, w: Wiring)
    requires Shown(b, w)
    ensures Shown(ObjectiveDone(b, o, w), w)
  {
    ObjectiveDoneRemoves(b.objectives, o);
  }

  lemma ClearAndFadeKeepShown(b: Board, w: Wiring)
    requires Shown(b, w)
    ensures Shown(ClearAll(b, w), w) && Shown(FadeOutEnds(b), w)
  {
  }

  /**
   * Marking the last objective done does not refresh the text: it goes on
   * showing the finished objective while the panel fades out.
   */
  lemma LastObjectiveStaysOnText(o: string, w: Wiring, panelActive: bool, fadeOuts: nat)
    requires w.hasText
    ensures var b := SetObjective(Board([], "", panelActive, fadeOuts), o, w);
      var r := ObjectiveDone(b, o, w);
      r.objectives == [] && r.text == Display([o]) == Header + Bullet + o + "\n"
  {
    var b := SetObjective(Board([], "", panelActive, fadeOuts), o, w);
    assert b.objectives == [o];
    assert IndexOf([o], o) == 0;
    assert Lines([o]) == Line(o) + Lines([]);
  }

  /**
   * A fade-out that is still running when a new objective is set ends by
   * deactivating the panel, hiding the objective just set.
   */
  lemma FadeOutHidesNewObjective(b: Board, o: string, w: Wiring)
    requires b.fadeOuts > 0 && o !in b.objectives
    ensures var r := FadeOutEnds(SetObjective(b, o, w));
      o in r.objectives && !r.panelActive
  {
  }
}
