/** The decision gate in front of the fill: the session's flags
    `userDecisionMade`, `replaceMode` and `showModal`, and how the
    component's events move them. */
module Gate {

  datatype Flags = Flags(userDecisionMade: bool, replaceMode: bool, showModal: bool)

  /** The `useState` initial values. */
  const Initial := Flags(false, false, false)

  datatype Event =
    /** `handleDummyDataFill` past its guards, with the occupancy scan's answer */
    | FillRequest(hasData: bool)
    /** `handleReplace` (true) or `handleAppend` (false) */
    | Choose(replace: bool)
    /** the dialog's `onOpenChange(false)` */
    | CloseModal
    /** `handleFileChange` */
    | LoadFile
    /** `handleSheetSelection` */
    | SelectSheet

  /** What an event leads to: the dialog is opened, the sheet is filled
      in the given mode, or neither. */
  datatype Effect = Prompt | Fill(replace: bool) | Nothing

  function Step(f: Flags, e: Event): (Flags, Effect) {
    match e
    case FillRequest(hasData) =>
      if hasData && !f.userDecisionMade then (f.(showModal := true), Prompt)
      else (f, Fill(f.replaceMode))
    case Choose(replace) => (Flags(true, replace, false), Fill(replace))
    case CloseModal => (f.(showModal := false), Nothing)
    case LoadFile => (f, Nothing)
    case SelectSheet => (f, Nothing)
  }

  /** The dialog is modal: its two buttons are the only way to choose,
      and while it is open nothing else on the page can be used. */
  predicate Allowed(f: Flags, e: Event) {
    match e
    case Choose(_) => f.showModal
    case CloseModal => true
    case _ => !f.showModal
  }

  predicate Feasible(f: Flags, es: seq<Event>)
    decreases |es|
  {
    es == [] || (Allowed(f, es[0]) && Feasible(Step(f, es[0]).0, es[1..]))
  }

  /** The effects of a sequence of events, in order. */
  function Run(f: Flags, es: seq<Event>): (effects: seq<Effect>)
    ensures |effects| == |es|
    decreases |es|
  {
    if es == [] then [] else [Step(f, es[0]).1] + Run(Step(f, es[0]).0, es[1..])
  }

  function Final(f: Flags, es: seq<Event>): Flags
    decreases |es|
  {
    if es == [] then f else Final(Step(f, es[0]).0, es[1..])
  }

  /** The dialog is never open once a decision is recorded. */
  predicate Consistent(f: Flags) {
    f.showModal ==> !f.userDecisionMade
  }

  /** One fill request prompts exactly when the sheet holds data and no
      decision is recorded; otherwise it fills with the remembered mode. */
  lemma FillRequestGate(f: Flags, hasData: bool)
    ensures Step(f, FillRequest(hasData)).1 == Prompt <==> hasData && !f.userDecisionMade
    ensures Step(f, FillRequest(hasData)).1 != Prompt ==>
              Step(f, FillRequest(hasData)) == (f, Fill(f.replaceMode))
  {
  }

  lemma {:induction false} ConsistentPreserved(f: Flags, es: seq<Event>)
    requires Consistent(f)
    ensures Consistent(Final(f, es))
    decreases |es|
  {
    if es != [] {
      ConsistentPreserved(Step(f, es[0]).0, es[1..]);
    }
  }

  /** Once recorded, a decision stays recorded and no later event opens
      the dialog. Loading a file or selecting a sheet does not reset it. */
  lemma {:induction false} DecisionIsFinal(f: Flags, es: seq<Event>)
    requires f.userDecisionMade
    ensures Final(f, es).userDecisionMade
    ensures Prompt !in Run(f, es)
    decreases |es|
  {
    if es != [] {
      DecisionIsFinal(Step(f, es[0]).0, es[1..]);
    }
  }

  /** After a decision, every later fill uses the recorded mode: with the
      dialog closed for good, neither button can be pressed again. */
  lemma {:induction false} ModeIsSticky(f: Flags, es: seq<Event>)
    requires f.userDecisionMade && !f.showModal
    requires Feasible(f, es)
    ensures Final(f, es) == f
    ensures forall i :: 0 <= i < |es| && Run(f, es)[i].Fill? ==> Run(f, es)[i].replace == f.replaceMode
    decreases |es|
  {
    if es != [] {
      assert Step(f, es[0]).0 == f;
      ModeIsSticky(f, es[1..]);
      assert forall i :: 1 <= i < |es| ==> Run(f, es)[i] == Run(f, es[1..])[i - 1];
    }
  }

  /** Nothing is ever filled in Replace mode unless the dialog was shown
      earlier: from the initial flags the user must first be asked. */
  lemma {:induction false} ReplaceOnlyAfterPrompt(f: Flags, es: seq<Event>)
    requires !f.replaceMode && !f.showModal
    requires Feasible(f, es)
    ensures forall i :: 0 <= i < |es| && Run(f, es)[i] == Fill(true) ==>
              exists j :: 0 <= j < i && Run(f, es)[j] == Prompt
    decreases |es|
  {
    if es != [] {
      var next := Step(f, es[0]);
      var effects := Run(f, es);
      assert effects[0] == next.1;
      assert forall i :: 1 <= i < |es| ==> effects[i] == Run(next.0, es[1..])[i - 1];
      if next.1 != Prompt {
        assert next.0 == f.(showModal := false);
        ReplaceOnlyAfterPrompt(next.0, es[1..]);
        forall i | 1 <= i < |es| && effects[i] == Fill(true)
          ensures exists j :: 0 <= j < i && effects[j] == Prompt
        {
          var j :| 0 <= j < i - 1 && Run(next.0, es[1..])[j] == Prompt;
          assert effects[j + 1] == Prompt;
        }
      }
    }
  }

  /** While the dialog is open and undecided, a further prompt needs the
      dialog to be closed first without an answer. */
  lemma {:induction false} NoPromptWhileOpen(f: Flags, es: seq<Event>)
    requires f.showModal && !f.userDecisionMade
    requires Feasible(f, es)
    ensures forall j :: 0 <= j < |es| && Run(f, es)[j] == Prompt ==>
              exists k :: 0 <= k < j && es[k] == CloseModal
    decreases |es|
  {
    if es != [] {
      var next := Step(f, es[0]);
      var effects := Run(f, es);
      assert forall i :: 1 <= i < |es| ==> effects[i] == Run(next.0, es[1..])[i - 1];
      match es[0]
      case Choose(r) =>
        DecisionIsFinal(next.0, es[1..]);
      case CloseModal =>
      case _ =>
        assert false;
    }
  }

  /** The user is asked again only after dismissing the dialog: between
      two prompts of a feasible run there is a CloseModal event. */
  lemma {:induction false} PromptsSeparatedByClose(f: Flags, es: seq<Event>)
    requires Consistent(f)
    requires Feasible(f, es)
    ensures forall i, j :: 0 <= i < j < |es| && Run(f, es)[i] == Prompt && Run(f, es)[j] == Prompt ==>
              exists k :: i < k < j && es[k] == CloseModal
    decreases |es|
  {
    if es != [] {
      var next := Step(f, es[0]);
      var effects := Run(f, es);
      var rest := Run(next.0, es[1..]);
      assert forall i :: 1 <= i < |es| ==> effects[i] == rest[i - 1];
      assert Consistent(next.0);
      PromptsSeparatedByClose(next.0, es[1..]);
      if next.1 == Prompt {
        NoPromptWhileOpen(next.0, es[1..]);
      }
      forall i, j | 0 <= i < j < |es| && effects[i] == Prompt && effects[j] == Prompt
        ensures exists k :: i < k < j && es[k] == CloseModal
      {
        if i == 0 {
          var k :| 0 <= k < j - 1 && es[1..][k] == CloseModal;
          assert es[k + 1] == CloseModal;
        } else {
          var k :| i - 1 < k < j - 1 && es[1..][k] == CloseModal;
          assert es[k + 1] == CloseModal;
        }
      }
    }
  }
}
