/**
 * `UIManager`: the objective panel and the dialogue box. Fades and the
 * typewriter are coroutines; each of their waits is modelled as a method
 * that the scene calls when the wait is over.
 */
module UserInterface {
  import opened Wrappers
  import opened Objectives
  import opened ObjectiveBoard
  import opened Dialogue

  class UIManager {
    // Scene references; a panel always has a canvas group after `Awake`.
    const hasObjectivePanel: bool
    const hasObjectiveText: bool
    const hasDialoguePanel: bool
    const hasDialogueText: bool

    var activeObjectives: seq<string>
    var objectiveText: string
    var objectivePanelActive: bool
    var pendingFadeOuts: nat

    var dialogueRun: Option<Run>  // the coroutine whose handle is `currentDialogueCoroutine`
    var dialogueText: string
    var dialoguePanelActive: bool
    var dialogueVisible: bool     // the dialogue canvas group's alpha is 1

    function Wiring(): Wiring {
      ObjectiveBoard.Wiring(hasObjectiveText, hasObjectivePanel)
    }

    function Board(): Board
      reads this
    {
      ObjectiveBoard.Board(activeObjectives, objectiveText, objectivePanelActive, pendingFadeOuts)
    }

    function Speech(): Speech
      reads this
    {
      Dialogue.Speech(dialogueRun, dialogueText, dialoguePanelActive, dialogueVisible)
    }

    /** `Awake`: both panels start inactive; the text components keep what the scene gave them. */
    constructor(hasObjectivePanel: bool, hasObjectiveText: bool, hasDialoguePanel: bool, hasDialogueText: bool,
                sceneObjectiveText: string, sceneDialogueText: string, dialogueOpaque: bool)
      ensures Wiring() == ObjectiveBoard.Wiring(hasObjectiveText, hasObjectivePanel)
      ensures this.hasDialoguePanel == hasDialoguePanel && this.hasDialogueText == hasDialogueText
      ensures Board() == ObjectiveBoard.Board([], sceneObjectiveText, false, 0) && Shown(Board(), Wiring())
      ensures Speech() == Dialogue.Speech(None, sceneDialogueText, false, dialogueOpaque)
    {
      this.hasObjectivePanel := hasObjectivePanel;
      this.hasObjectiveText := hasObjectiveText;
      this.hasDialoguePanel := hasDialoguePanel;
      this.hasDialogueText := hasDialogueText;
      activeObjectives := [];
      objectiveText := sceneObjectiveText;
      objectivePanelActive := false;
      pendingFadeOuts := 0;
      dialogueRun := None;
      dialogueText := sceneDialogueText;
      dialoguePanelActive := false;
      dialogueVisible := dialogueOpaque;
    }

    method SetObjective(objective: string)
      modifies this
      ensures Board() == ObjectiveBoard.SetObjective(old(Board()), objective, Wiring())
      ensures Speech() == old(Speech())
    {
      if objective !in activeObjectives {
        activeObjectives := activeObjectives + [objective];
        UpdateObjectiveDisplay();
        FadeInObjective();
      }
    }

    method ObjectiveDone(objective: string)
      modifies this
      ensures Board() == ObjectiveBoard.ObjectiveDone(old(Board()), objective, Wiring())
      ensures Speech() == old(Speech())
    {
      if objective in activeObjectives {
        activeObjectives := Lists.RemoveFirst(activeObjectives, objective);
        if |activeObjectives| == 0 {
          FadeOutObjective();
        } else {
          UpdateObjectiveDisplay();
        }
      }
    }

    method ClearAllObjectives()
      modifies this
      ensures Board() == ClearAll(old(Board()), Wiring())
      ensures Speech() == old(Speech())
    {
      activeObjectives := [];
      FadeOutObjective();
    }

    /** Writes the header and one bullet line per objective, in list order. */
    method UpdateObjectiveDisplay()
      modifies this
      ensures Board() == Refresh(old(Board()), Wiring())
      ensures Speech() == old(Speech())
    {
      if hasObjectiveText {
        var objectives, displayText := activeObjectives, Header;
        for i := 0 to |objectives|
          invariant displayText == Header + Lines(objectives[..i])
          modifies {}
        {
          LinesAppend(objectives[..i], objectives[i]);
          assert objectives[..i + 1] == objectives[..i] + [objectives[i]];
          displayText := displayText + Bullet + objectives[i] + "\n";
        }
        assert objectives[..|objectives|] == objectives;
        objectiveText := displayText;
      }
    }

    /** The part of the fade-in that runs at once: the panel is activated. */
    method FadeInObjective()
      modifies this
      ensures Board() == old(Board()).(panelActive := old(objectivePanelActive) || hasObjectivePanel)
      ensures Speech() == old(Speech())
    {
      if hasObjectivePanel {
        objectivePanelActive := true;
      }
    }

    /** Starts a fade-out, which deactivates the panel when it ends. */
    method FadeOutObjective()
      modifies this
      ensures Board() == old(Board()).(fadeOuts := old(pendingFadeOuts) + if hasObjectivePanel then 1 else 0)
      ensures Speech() == old(Speech())
    {
      if hasObjectivePanel {
        pendingFadeOuts := pendingFadeOuts + 1;
      }
    }

    /** The oldest running fade-out has run its course. */
    method ObjectiveFadeOutEnded()
      modifies this
      ensures Board() == FadeOutEnds(old(Board()))
      ensures Speech() == old(Speech())
    {
      if pendingFadeOuts > 0 {
        pendingFadeOuts := pendingFadeOuts - 1;
        objectivePanelActive := false;
      }
    }

    method ShowDialogue(line: string)
      modifies this
      ensures Speech() == Show(old(Speech()), line, hasDialoguePanel && hasDialogueText)
      ensures Board() == old(Board())
    {
      if dialogueRun.Some? {
        dialogueRun := None;
      }
      if hasDialoguePanel && hasDialogueText {
        dialoguePanelActive := true;
        dialogueVisible := true;
        dialogueText := "";
        if |line| > 0 {
          dialogueText := dialogueText + [line[0]];
          dialogueRun := Some(Typing(line, 1));
        } else {
          dialogueRun := Some(Lingering(line));
        }
      }
    }

    /** The running dialogue coroutine's current wait is over. */
    method DialogueWaitEnded()
      modifies this
      ensures Speech() == Resume(old(Speech()))
      ensures Board() == old(Board())
    {
      match dialogueRun
      case None =>
      case Some(Typing(line, n)) =>
        if n < |line| {
          dialogueText := dialogueText + [line[n]];
          dialogueRun := Some(Typing(line, n + 1));
        } else {
          dialogueRun := Some(Lingering(line));
        }
      case Some(Lingering(_)) =>
        dialogueText := "";
        dialogueVisible := false;
        dialoguePanelActive := false;
        dialogueRun := None;
    }

    /** `completed` is false when the call fails on the missing text component. */
    method HideDialogue() returns (completed: bool)
      modifies this
      ensures (Speech(), completed) == Hide(old(Speech()), hasDialoguePanel, hasDialogueText)
      ensures Board() == old(Board())
    {
      if dialogueRun.Some? {
        dialogueRun := None;
      }
      if hasDialoguePanel {
        if !hasDialogueText {
          return false;
        }
        dialogueText := "";
        dialogueVisible := false;
        dialoguePanelActive := false;
      }
      return true;
    }
  }
}
