/**
 The dialogs that guard a circuit against being lost: asking to save it, choosing files, and leaving the application.
 The content of the circuit is the text it serializes to.
 */
module CircuitUiModels {
  import opened Wrappers

  datatype NameOrPath = UnsavedName(name: string) | SavedPath(path: string)

  datatype SaveInformation = SaveInformation(nameOrPath: NameOrPath, serialized: Option<string>)

  datatype FileAction =
    | NewFile | OpenFile | SaveFile | SaveAsFile | ExitApplication
    | LoadExampleSimple | LoadExampleElementsAndWires | LoadExampleElements | LoadExampleWires

  datatype ModalRequest = SaveCurrentModal | OpenFileModal | SaveFileModal

  datatype ModalResult =
    | NoResult
    | SaveCurrentYes | SaveCurrentNo | SaveCurrentCancel
    | OpenFileOpen(toOpen: string) | OpenFileCancel
    | SaveFileSave(toSave: string) | SaveFileCancel

  datatype NextActionStep = SaveFileError(path: string) | OpenFileError(path: string) | Request(request: ModalRequest) | Exit

  datatype CircuitAction = CircuitAction(action: FileAction, filename: Option<string>)

  datatype ModalState = ModalState(request: ModalRequest, action: FileAction)

  /** What the outside does during a call: the circuit after finishing edits, and the results of saving and loading. */
  datatype Outside = Outside(finalized: string, saveSucceeds: bool, loaded: Option<string>, empty: string, example: string)

  datatype Save = Save(path: string, content: string)

  /** Besides the fields of the model, the log of all files it wrote. */
  datatype State = State(content: string, saved: SaveInformation, modal: Option<ModalState>, saves: seq<Save>)

  predicate RequiresSaveCurrentPrompt(action: FileAction) {
    !(action.SaveFile? || action.SaveAsFile?)
  }

  predicate IsErrorMessage(step: Option<NextActionStep>) {
    step.Some? && (step.value.SaveFileError? || step.value.OpenFileError?)
  }

  predicate IsModalRequest(step: Option<NextActionStep>) {
    step.Some? && step.value.Request?
  }

  /** The content is the one that was last saved or loaded. */
  predicate IsClean(s: State) {
    s.saved.serialized == Some(s.content)
  }

  //
  // The specification of the steps
  //

  datatype Plan = Plan(nextStep: Option<NextActionStep>, currentAction: Option<CircuitAction>)

  function NextModal(s: State, action: FileAction): Plan {
    match action
    case OpenFile => Plan(Some(Request(OpenFileModal)), None)
    case SaveFile =>
      if s.saved.nameOrPath.SavedPath? then Plan(None, Some(CircuitAction(SaveFile, Some(s.saved.nameOrPath.path))))
      else Plan(Some(Request(SaveFileModal)), None)
    case SaveAsFile => Plan(Some(Request(SaveFileModal)), None)
    case ExitApplication => Plan(Some(Exit), None)
    case _ => Plan(None, Some(CircuitAction(action, None)))
  }

  /** An error or a request that is already there stays. */
  function NextModalAfter(s: State, action: FileAction, nextStep: Option<NextActionStep>): Plan {
    if nextStep.Some? then Plan(nextStep, None) else NextModal(s, action)
  }

  function ExampleName(action: FileAction): string {
    if action.LoadExampleSimple? then "Example 1"
    else if action.LoadExampleElementsAndWires? then "Example 2"
    else if action.LoadExampleElements? then "Example 3"
    else "Example 4"
  }

  function Replaced(s: State, content: string, nameOrPath: NameOrPath): State {
    s.(content := content, saved := SaveInformation(nameOrPath, Some(content)))
  }

  datatype Outcome = Outcome(state: State, nextStep: Option<NextActionStep>)

  function Saved(s: State, path: string, outside: Outside): Outcome {
    if outside.saveSucceeds then
      Outcome(s.(saved := SaveInformation(SavedPath(path), Some(s.content)), saves := s.saves + [Save(path, s.content)]), None)
    else Outcome(s, Some(SaveFileError(path)))
  }

  function Opened(s: State, path: string, outside: Outside): Outcome {
    if outside.loaded.Some? then Outcome(Replaced(s, outside.loaded.value, SavedPath(path)), None)
    else Outcome(s, Some(OpenFileError(path)))
  }

  predicate NeedsFilename(action: FileAction) {
    action.OpenFile? || action.SaveFile? || action.SaveAsFile?
  }

  /** An action that works on a file names it. */
  predicate NamesFile(action: Option<CircuitAction>) {
    action.Some? && NeedsFilename(action.value.action) ==> action.value.filename.Some?
  }

  function Performed(s: State, plan: Plan, outside: Outside): Outcome
    requires NamesFile(plan.currentAction)
  {
    if plan.currentAction.None? || IsErrorMessage(plan.nextStep) then Outcome(s, plan.nextStep)
    else
      var CircuitAction(action, filename) := plan.currentAction.value;
      match action
      case NewFile => Outcome(Replaced(s, outside.empty, UnsavedName("Circuit")), None)
      case OpenFile => Opened(s, filename.value, outside)
      case SaveFile => Saved(s, filename.value, outside)
      case SaveAsFile => Saved(s, filename.value, outside)
      case ExitApplication => Outcome(s, None)
      case _ => Outcome(Replaced(s, outside.example, UnsavedName(ExampleName(action))), None)
  }

  /** Saves first, and then goes on with the action of the dialog if no error came up and no request is left. */
  function SaveAndGoOn(s: State, plan: Plan, action: FileAction, outside: Outside): (State, Plan)
    requires NamesFile(plan.currentAction)
    requires plan.currentAction.Some? ==> plan.currentAction.value.action == SaveFile
  {
    var saved := Performed(s, plan, outside);
    (saved.state, NextModalAfter(saved.state, action, saved.nextStep))
  }

  function Finished(s: State, action: FileAction, plan: Plan, outside: Outside): Outcome
    requires NamesFile(plan.currentAction)
  {
    var modal := if IsModalRequest(plan.nextStep) then Some(ModalState(plan.nextStep.value.request, action)) else None;
    Performed(s.(modal := modal), plan, outside)
  }

  /** A file action of the user, or None when it is refused because a dialog is open. */
  function ActedOn(s: State, action: FileAction, outside: Outside): Option<Outcome> {
    if s.modal.Some? then None
    else
      var f := s.(content := outside.finalized);
      var asked := if RequiresSaveCurrentPrompt(action) && !IsClean(f) then Some(Request(SaveCurrentModal)) else None;
      Some(Finished(f, action, NextModalAfter(f, action, asked), outside))
  }

  /** The answer of the user to the open dialog, or None when it is refused because it does not answer that dialog. */
  function Answered(s: State, answer: ModalResult, outside: Outside): Option<Outcome> {
    if s.modal.None? then None
    else
      var ModalState(request, action) := s.modal.value;
      match (request, answer)
      case (SaveCurrentModal, SaveCurrentYes) =>
        var (t, plan) := SaveAndGoOn(s, NextModal(s, SaveFile), action, outside);
        Some(Finished(t, action, plan, outside))
      case (SaveCurrentModal, SaveCurrentNo) => Some(Finished(s, action, NextModal(s, action), outside))
      case (SaveCurrentModal, SaveCurrentCancel) => Some(Finished(s, action, Plan(None, None), outside))
      case (OpenFileModal, OpenFileOpen(path)) =>
        Some(Finished(s, action, Plan(None, Some(CircuitAction(action, Some(path)))), outside))
      case (OpenFileModal, OpenFileCancel) => Some(Finished(s, action, Plan(None, None), outside))
      case (SaveFileModal, SaveFileSave(path)) =>
        var save := Plan(None, Some(CircuitAction(SaveFile, Some(path))));
        if RequiresSaveCurrentPrompt(action) then
          var (t, plan) := SaveAndGoOn(s, save, action, outside);
          Some(Finished(t, action, plan, outside))
        else Some(Finished(s, action, save, outside))
      case (SaveFileModal, SaveFileCancel) => Some(Finished(s, action, Plan(None, None), outside))
      case _ => None
  }

  //
  // Runs
  //

  /** Everything that can happen to the model; edits are refused while a dialog is open. */
  datatype Input = Act(action: FileAction) | Answer(result: ModalResult) | Edit

  function Next(s: State, input: Input, outside: Outside): Option<Outcome> {
    match input
    case Act(action) => ActedOn(s, action, outside)
    case Answer(result) => Answered(s, result, outside)
    case Edit => if s.modal.Some? then None else Some(Outcome(s.(content := outside.finalized), None))
  }

  function StateAfter(s: State, input: Input, outside: Outside): State {
    if Next(s, input, outside).None? then s else Next(s, input, outside).value.state
  }

  /** The user said in the open dialog that the circuit need not be saved. */
  predicate SaidNo(s: State, input: Input) {
    s.modal.Some? && s.modal.value.request.SaveCurrentModal? && input == Answer(SaveCurrentNo)
  }

  /** A file action finishes the edits before anything else. */
  function Finalized(s: State, input: Input, outside: Outside): State {
    if s.modal.None? && input.Act? then s.(content := outside.finalized) else s
  }

  /** The circuit that was there is gone after the step, or the application is told to exit. */
  predicate Loses(s: State, input: Input, outside: Outside) {
    var next := Next(s, input, outside);
    next.Some? && !input.Edit? &&
    (next.value.nextStep == Some(Exit) || next.value.state.content != Finalized(s, input, outside).content)
  }

  /** The user answers the open dialog by having the circuit saved to the file. */
  predicate AgreesToSave(s: State, input: Input, path: string) {
    && s.modal.Some?
    && match s.modal.value.request
       case SaveCurrentModal => input == Answer(SaveCurrentYes) && s.saved.nameOrPath == SavedPath(path)
       case SaveFileModal => input == Answer(SaveFileSave(path))
       case OpenFileModal => false
  }

  /** The user has the circuit saved to the file, saving succeeds, and the step writes exactly that. */
  predicate Saves(s: State, input: Input, outside: Outside, path: string) {
    && AgreesToSave(s, input, path) && outside.saveSucceeds
    && StateAfter(s, input, outside).saves == s.saves + [Save(path, s.content)]
  }

  //
  // What every step keeps
  //

  /** The open request fits the action, and no circuit is opened over one that is neither clean nor given up. */
  predicate DialogFits(s: State, givenUp: bool) {
    match s.modal
    case None => !givenUp
    case Some(ModalState(SaveCurrentModal, action)) => RequiresSaveCurrentPrompt(action) && !IsClean(s) && !givenUp
    case Some(ModalState(SaveFileModal, action)) =>
      !givenUp && (RequiresSaveCurrentPrompt(action) ==> !IsClean(s) && s.saved.nameOrPath.UnsavedName?)
    case Some(ModalState(OpenFileModal, action)) => action.OpenFile? && (IsClean(s) || givenUp)
  }

  /** The circuit is given up from the answer no until the end of the dialog. */
  predicate GivenUpAfter(s: State, givenUp: bool, input: Input, outside: Outside) {
    (givenUp || SaidNo(s, input)) && StateAfter(s, input, outside).modal.Some?
  }

  lemma StepKeepsDialog(s: State, givenUp: bool, input: Input, outside: Outside)
    requires DialogFits(s, givenUp)
    ensures DialogFits(StateAfter(s, input, outside), GivenUpAfter(s, givenUp, input, outside))
  {
  }

  /** A circuit is lost only if it is the one that was saved last, is saved in the step, or was given up. */
  lemma LossIsAllowed(s: State, givenUp: bool, input: Input, outside: Outside)
    requires DialogFits(s, givenUp) && Loses(s, input, outside)
    ensures
      || IsClean(Finalized(s, input, outside))
      || (exists path :: Saves(s, input, outside, path))
      || givenUp || SaidNo(s, input)
  {
    if s.modal.Some? && s.modal.value.request.SaveFileModal? && input.Answer? && input.result.SaveFileSave? {
      assert outside.saveSucceeds ==> Saves(s, input, outside, input.result.toSave);
    }
    if s.modal.Some? && s.modal.value.request.SaveCurrentModal? && s.saved.nameOrPath.SavedPath? {
      assert input == Answer(SaveCurrentYes) && outside.saveSucceeds ==> Saves(s, input, outside, s.saved.nameOrPath.path);
    }
  }

  function Rank(modal: Option<ModalState>): nat {
    match modal
    case None => 0
    case Some(ModalState(OpenFileModal, _)) => 1
    case Some(ModalState(SaveFileModal, _)) => 2
    case Some(ModalState(SaveCurrentModal, _)) => 3
  }

  /** Every answer brings a dialog closer to its end. */
  lemma AnswerDescends(s: State, answer: ModalResult, outside: Outside)
    requires Answered(s, answer, outside).Some?
    ensures Rank(Answered(s, answer, outside).value.state.modal) < Rank(s.modal)
  {
  }

  /** A dialog is open exactly when a request is returned, it is that request, and the action stays the same. */
  lemma ModalIffRequest(s: State, input: Input, outside: Outside)
    requires Next(s, input, outside).Some?
    ensures var next := Next(s, input, outside).value;
      && (next.state.modal.Some? <==> IsModalRequest(next.nextStep))
      && (next.state.modal.Some? ==> next.nextStep == Some(Request(next.state.modal.value.request)))
      && (next.state.modal.Some? && s.modal.Some? ==> next.state.modal.value.action == s.modal.value.action)
  {
  }

  /** The file that the save information names, right after the circuit was saved to it. */
  predicate JustSaved(s: State, t: State, path: string) {
    t.saved == SaveInformation(SavedPath(path), Some(s.content))
  }

  /** While a dialog stays open the circuit does not change, and its save information only does by saving it. */
  lemma OpenDialogKeepsCircuit(s: State, input: Input, outside: Outside)
    requires s.modal.Some? && StateAfter(s, input, outside).modal.Some?
    ensures var t := StateAfter(s, input, outside);
      && t.content == s.content
      && ((t.saved == s.saved && t.saves == s.saves)
          || exists path :: Saves(s, input, outside, path) && JustSaved(s, t, path))
  {
    var t := StateAfter(s, input, outside);
    if input.Answer? && input.result.SaveFileSave? && s.modal.value.request.SaveFileModal? {
      assert t.saves == s.saves || (Saves(s, input, outside, input.result.toSave) && JustSaved(s, t, input.result.toSave));
    }
    if s.modal.value.request.SaveCurrentModal? && s.saved.nameOrPath.SavedPath? && input == Answer(SaveCurrentYes) {
      var path := s.saved.nameOrPath.path;
      assert t.saves == s.saves || (Saves(s, input, outside, path) && JustSaved(s, t, path));
    }
  }

  /** Canceling any dialog changes nothing. */
  lemma CancelChangesNothing(s: State, answer: ModalResult, outside: Outside)
    requires answer.SaveCurrentCancel? || answer.OpenFileCancel? || answer.SaveFileCancel?
    requires Answered(s, answer, outside).Some?
    ensures Answered(s, answer, outside) == Some(Outcome(s.(modal := None), None))
  {
  }

  /** Answering yes, or choosing a file when asked for one, is the same as saving first and then doing the action. */
  lemma SavingThenActing(s: State, givenUp: bool, answer: ModalResult, path: string, outside: Outside)
    requires DialogFits(s, givenUp) && s.modal.Some? && outside.saveSucceeds
    requires RequiresSaveCurrentPrompt(s.modal.value.action)
    requires (s.modal.value.request.SaveCurrentModal? && answer.SaveCurrentYes? && s.saved.nameOrPath == SavedPath(path))
          || (s.modal.value.request.SaveFileModal? && answer == SaveFileSave(path))
    ensures var saved := Saved(s.(modal := None), path, outside).state;
      Answered(s, answer, outside) == ActedOn(saved, s.modal.value.action, outside.(finalized := s.content))
  {
  }

  /** When saving fails, the dialog ends with an error and everything stays as it was. */
  lemma FailedSaveChangesNothing(s: State, givenUp: bool, answer: ModalResult, path: string, outside: Outside)
    requires DialogFits(s, givenUp) && s.modal.Some? && !outside.saveSucceeds
    requires (s.modal.value.request.SaveCurrentModal? && answer.SaveCurrentYes? && s.saved.nameOrPath == SavedPath(path))
          || (s.modal.value.request.SaveFileModal? && answer == SaveFileSave(path))
    ensures Answered(s, answer, outside) == Some(Outcome(s.(modal := None), Some(SaveFileError(path))))
  {
  }

  //
  // What each action and each answer does
  //

  /** Edits that are not saved are asked about first, unless the action itself saves them. */
  lemma DirtyIsAsked(s: State, action: FileAction, outside: Outside)
    requires s.modal.None? && s.saved.serialized != Some(outside.finalized)
    requires action != SaveFile && action != SaveAsFile
    ensures ActedOn(s, action, outside) ==
      Some(Outcome(State(outside.finalized, s.saved, Some(ModalState(SaveCurrentModal, action)), s.saves),
                   Some(Request(SaveCurrentModal))))
  {
  }

  /** Over a saved circuit, a new one and the examples open at once under their names, and the others go their way. */
  lemma CleanIsReplaced(s: State, action: FileAction, outside: Outside)
    requires s.modal.None? && s.saved.serialized == Some(outside.finalized)
    ensures var f := outside.finalized;
      && (action == NewFile ==>
        ActedOn(s, action, outside) == Some(Outcome(
          State(outside.empty, SaveInformation(UnsavedName("Circuit"), Some(outside.empty)), None, s.saves), None)))
      && (action == LoadExampleSimple ==>
        ActedOn(s, action, outside) == Some(Outcome(
          State(outside.example, SaveInformation(UnsavedName("Example 1"), Some(outside.example)), None, s.saves), None)))
      && (action == LoadExampleElementsAndWires ==>
        ActedOn(s, action, outside) == Some(Outcome(
          State(outside.example, SaveInformation(UnsavedName("Example 2"), Some(outside.example)), None, s.saves), None)))
      && (action == LoadExampleElements ==>
        ActedOn(s, action, outside) == Some(Outcome(
          State(outside.example, SaveInformation(UnsavedName("Example 3"), Some(outside.example)), None, s.saves), None)))
      && (action == LoadExampleWires ==>
        ActedOn(s, action, outside) == Some(Outcome(
          State(outside.example, SaveInformation(UnsavedName("Example 4"), Some(outside.example)), None, s.saves), None)))
      && (action == OpenFile ==>
        ActedOn(s, action, outside) == Some(Outcome(
          State(f, s.saved, Some(ModalState(OpenFileModal, OpenFile)), s.saves), Some(Request(OpenFileModal)))))
      && (action == ExitApplication ==>
        ActedOn(s, action, outside) == Some(Outcome(State(f, s.saved, None, s.saves), Some(Exit))))
  {
  }

  /** Saving writes the finished edits to the file of the circuit; without a file, and for Save As, it asks for one. */
  lemma SaveIsWritten(s: State, action: FileAction, outside: Outside)
    requires s.modal.None? && (action == SaveFile || action == SaveAsFile)
    ensures var f := outside.finalized;
      if action == SaveFile && s.saved.nameOrPath.SavedPath? then
        var path := s.saved.nameOrPath.path;
        ActedOn(s, action, outside) == Some(
          if outside.saveSucceeds then
            Outcome(State(f, SaveInformation(SavedPath(path), Some(f)), None, s.saves + [Save(path, f)]), None)
          else Outcome(State(f, s.saved, None, s.saves), Some(SaveFileError(path))))
      else
        ActedOn(s, action, outside) == Some(Outcome(
          State(f, s.saved, Some(ModalState(SaveFileModal, action)), s.saves), Some(Request(SaveFileModal))))
  {
  }

  /** A file chosen for saving gets the circuit, which belongs to that file from then on. */
  lemma ChosenFileIsWritten(s: State, action: FileAction, path: string, outside: Outside)
    requires s.modal == Some(ModalState(SaveFileModal, action)) && (action == SaveFile || action == SaveAsFile)
    ensures Answered(s, SaveFileSave(path), outside) == Some(
      if outside.saveSucceeds then
        Outcome(State(s.content, SaveInformation(SavedPath(path), Some(s.content)), None, s.saves + [Save(path, s.content)]),
                None)
      else Outcome(State(s.content, s.saved, None, s.saves), Some(SaveFileError(path))))
  {
  }

  /** A file chosen for opening replaces the circuit by what was loaded from it. */
  lemma ChosenFileIsOpened(s: State, path: string, outside: Outside)
    requires s.modal == Some(ModalState(OpenFileModal, OpenFile))
    ensures Answered(s, OpenFileOpen(path), outside) == Some(
      if outside.loaded.Some? then
        var loaded := outside.loaded.value;
        Outcome(State(loaded, SaveInformation(SavedPath(path), Some(loaded)), None, s.saves), None)
      else Outcome(State(s.content, s.saved, None, s.saves), Some(OpenFileError(path))))
  {
  }

  /** The answer no does the action as if the circuit had been saved, without writing anything. */
  lemma NoActsUnsaved(s: State, action: FileAction, outside: Outside)
    requires s.modal == Some(ModalState(SaveCurrentModal, action)) && action != SaveFile && action != SaveAsFile
    ensures var acted := ActedOn(State(s.content, SaveInformation(s.saved.nameOrPath, Some(s.content)), None, s.saves),
                                 action, outside.(finalized := s.content)).value;
      Answered(s, SaveCurrentNo, outside) == Some(
        if action == OpenFile || action == ExitApplication
        then Outcome(acted.state.(saved := s.saved), acted.nextStep) else acted)
  {
  }

  //
  // Runs
  //

  datatype Step = Step(input: Input, outside: Outside)

  /** The state before step n of a run. */
  function StateAt(s: State, run: seq<Step>, n: nat): State
    requires n <= |run|
  {
    if n == 0 then s else StateAfter(StateAt(s, run, n - 1), run[n - 1].input, run[n - 1].outside)
  }

  predicate GivenUpAt(s: State, run: seq<Step>, n: nat)
    requires n <= |run|
  {
    n > 0 && GivenUpAfter(StateAt(s, run, n - 1), GivenUpAt(s, run, n - 1), run[n - 1].input, run[n - 1].outside)
  }

  predicate IsInitial(s: State) {
    IsClean(s) && s.modal.None?
  }

  lemma {:induction false} RunKeepsDialog(s: State, run: seq<Step>, n: nat)
    requires IsInitial(s) && n <= |run|
    ensures DialogFits(StateAt(s, run, n), GivenUpAt(s, run, n))
  {
    if n > 0 {
      RunKeepsDialog(s, run, n - 1);
      StepKeepsDialog(StateAt(s, run, n - 1), GivenUpAt(s, run, n - 1), run[n - 1].input, run[n - 1].outside);
    }
  }

  /** The user said no in step j to saving the very circuit of step n, and the dialog is open ever since. */
  ghost predicate SaidNoTo(s: State, run: seq<Step>, j: nat, n: nat)
    requires j < n <= |run|
  {
    && SaidNo(StateAt(s, run, j), run[j].input)
    && (forall k :: j <= k <= n ==> StateAt(s, run, k).modal.Some? && StateAt(s, run, k).content == StateAt(s, run, n).content)
  }

  lemma {:induction false} GivenUpIsSaidNo(s: State, run: seq<Step>, n: nat)
    requires IsInitial(s) && n <= |run| && GivenUpAt(s, run, n)
    ensures exists j: nat :: j < n && SaidNoTo(s, run, j, n)
  {
    hide DialogFits, StateAfter, SaidNo;
    var t, step := StateAt(s, run, n - 1), run[n - 1];
    RunKeepsDialog(s, run, n - 1);
    GivenUpIsModal(t, GivenUpAt(s, run, n - 1), step.input);
    OpenDialogKeepsCircuit(t, step.input, step.outside);
    if GivenUpAt(s, run, n - 1) {
      GivenUpIsSaidNo(s, run, n - 1);
      var j: nat :| j < n - 1 && SaidNoTo(s, run, j, n - 1);
      assert SaidNoTo(s, run, j, n);
    } else {
      assert SaidNoTo(s, run, n - 1, n);
    }
  }

  lemma GivenUpIsModal(s: State, givenUp: bool, input: Input)
    requires DialogFits(s, givenUp) && (givenUp || SaidNo(s, input))
    ensures s.modal.Some?
  {
  }

  /**
   In every run the circuit is replaced or the application exited only if the circuit equals the one that was saved last,
   the user had it saved in that step and saving succeeded, or the user said no to saving it in the same dialog.
   */
  lemma NothingIsLost(s: State, run: seq<Step>, n: nat)
    requires IsInitial(s) && n < |run| && Loses(StateAt(s, run, n), run[n].input, run[n].outside)
    ensures var t, input, outside := StateAt(s, run, n), run[n].input, run[n].outside;
      || IsClean(Finalized(t, input, outside))
      || (exists path :: Saves(t, input, outside, path))
      || SaidNo(t, input)
      || (exists j: nat :: j < n && SaidNoTo(s, run, j, n))
  {
    hide IsClean, Finalized, Loses, Saves, SaidNo, DialogFits, StateAfter;
    RunKeepsDialog(s, run, n);
    LossIsAllowed(StateAt(s, run, n), GivenUpAt(s, run, n), run[n].input, run[n].outside);
    if GivenUpAt(s, run, n) {
      GivenUpIsSaidNo(s, run, n);
    }
  }

  //
  // The model
  //

  class CircuitUIModel {
    var content: string
    var saveInformation: SaveInformation
    var modal: Option<ModalState>
    ghost var saves: seq<Save>

    ghost function Value(): State
      reads this
    {
      State(content, saveInformation, modal, saves)
    }

    constructor (initial: string)
      ensures IsInitial(Value()) && content == initial
    {
      content := initial;
      saveInformation := SaveInformation(UnsavedName("Circuit"), Some(initial));
      modal := None;
      saves := [];
    }

    method FinalizeEditing(outside: Outside)
      modifies this`content
      ensures content == outside.finalized
    {
      content := outside.finalized;
    }

    predicate CalculateIsModified()
      reads this
      ensures CalculateIsModified() <==> !IsClean(Value())
    {
      Some(content) != saveInformation.serialized
    }

    /** Returns false when the action is refused. */
    method FileAction(action: FileAction, outside: Outside) returns (ok: bool, nextStep: Option<NextActionStep>)
      modifies this
      ensures ok <==> ActedOn(old(Value()), action, outside).Some?
      ensures !ok ==> Value() == old(Value())
      ensures ok ==> ActedOn(old(Value()), action, outside) == Some(Outcome(Value(), nextStep))
    {
      nextStep := None;
      if modal.Some? {
        return false, None;
      }
      FinalizeEditing(outside);
      if RequiresSaveCurrentPrompt(action) {
        var isModified := CalculateIsModified();
        if isModified {
          nextStep := Some(Request(SaveCurrentModal));
        }
      }
      var currentAction;
      nextStep, currentAction := NextModalAction(action, nextStep);
      if IsModalRequest(nextStep) {
        modal := Some(ModalState(nextStep.value.request, action));
      }
      nextStep := DoModalAction(currentAction, nextStep, outside);
      ok := true;
    }

    /** Returns false when there is no request, or the result does not answer it. */
    method SubmitModalResult(result: ModalResult, outside: Outside) returns (ok: bool, nextStep: Option<NextActionStep>)
      modifies this
      ensures ok <==> Answered(old(Value()), result, outside).Some?
      ensures !ok ==> Value() == old(Value())
      ensures ok ==> Answered(old(Value()), result, outside) == Some(Outcome(Value(), nextStep))
    {
      nextStep := None;
      if modal.None? {
        return false, None;
      }
      var ModalState(lastRequest, action) := modal.value;
      var currentAction: Option<CircuitAction> := None;
      match lastRequest {
        case SaveCurrentModal =>
          match result {
            case SaveCurrentYes =>
              nextStep, currentAction := NextModalAction(SaveFile, nextStep);
              nextStep := DoModalAction(currentAction, nextStep, outside);
              nextStep, currentAction := NextModalAction(action, nextStep);
            case SaveCurrentNo =>
              nextStep, currentAction := NextModalAction(action, nextStep);
            case SaveCurrentCancel =>
            case _ => return false, None;
          }
        case OpenFileModal =>
          match result {
            case OpenFileOpen(path) => currentAction := Some(CircuitAction(action, Some(path)));
            case OpenFileCancel =>
            case _ => return false, None;
          }
        case SaveFileModal =>
          match result {
            case SaveFileSave(path) =>
              currentAction := Some(CircuitAction(SaveFile, Some(path)));
              if RequiresSaveCurrentPrompt(action) {
                nextStep := DoModalAction(currentAction, nextStep, outside);
                nextStep, currentAction := NextModalAction(action, nextStep);
              }
            case SaveFileCancel =>
            case _ => return false, None;
          }
      }
      modal := if IsModalRequest(nextStep) then Some(modal.value.(request := nextStep.value.request)) else None;
      nextStep := DoModalAction(currentAction, nextStep, outside);
      ok := true;
    }

    method NextModalAction(action: FileAction, step: Option<NextActionStep>)
      returns (nextStep: Option<NextActionStep>, currentAction: Option<CircuitAction>)
      ensures Plan(nextStep, currentAction) == NextModalAfter(Value(), action, step)
      ensures nextStep.Some? != currentAction.Some?
    {
      nextStep, currentAction := step, None;
      if nextStep.Some? {
        return;
      }
      match action
      case OpenFile => nextStep := Some(Request(OpenFileModal));
      case SaveFile =>
        match saveInformation.nameOrPath {
          case SavedPath(path) => currentAction := Some(CircuitAction(action, Some(path)));
          case UnsavedName(_) => nextStep := Some(Request(SaveFileModal));
        }
      case SaveAsFile => nextStep := Some(Request(SaveFileModal));
      case ExitApplication => nextStep := Some(Exit);
      case _ => currentAction := Some(CircuitAction(action, None));
    }

    /** Nothing but saving is done while a dialog is open: setting another circuit would be refused. */
    method DoModalAction(currentAction: Option<CircuitAction>, step: Option<NextActionStep>, outside: Outside)
      returns (nextStep: Option<NextActionStep>)
      requires currentAction.None? || step.None? || IsErrorMessage(step)
      requires NamesFile(currentAction)
      requires currentAction.Some? && RequiresSaveCurrentPrompt(currentAction.value.action) ==> modal.None?
      modifies this
      ensures Performed(old(Value()), Plan(step, currentAction), outside) == Outcome(Value(), nextStep)
    {
      nextStep := step;
      if currentAction.None? || IsErrorMessage(step) {
        return;
      }
      var CircuitAction(action, filename) := currentAction.value;
      match action
      case NewFile => SetCircuit(outside.empty, UnsavedName("Circuit"));
      case OpenFile =>
        var success := OpenFromFile(filename.value, outside);
        if !success {
          nextStep := Some(OpenFileError(filename.value));
        }
      case SaveFile => nextStep := SaveOrError(filename.value, outside);
      case SaveAsFile => nextStep := SaveOrError(filename.value, outside);
      case ExitApplication =>
      case LoadExampleSimple => SetCircuit(outside.example, UnsavedName("Example 1"));
      case LoadExampleElementsAndWires => SetCircuit(outside.example, UnsavedName("Example 2"));
      case LoadExampleElements => SetCircuit(outside.example, UnsavedName("Example 3"));
      case LoadExampleWires => SetCircuit(outside.example, UnsavedName("Example 4"));
    }

    method SetCircuit(circuit: string, nameOrPath: NameOrPath)
      requires modal.None?
      modifies this
      ensures Value() == Replaced(old(Value()), circuit, nameOrPath)
    {
      content := circuit;
      saveInformation := SaveInformation(nameOrPath, Some(content));
    }

    method OpenFromFile(filename: string, outside: Outside) returns (success: bool)
      requires modal.None?
      modifies this
      ensures Opened(old(Value()), filename, outside) ==
        Outcome(Value(), if success then None else Some(OpenFileError(filename)))
    {
      var original := content;
      content := outside.empty;
      success := outside.loaded.Some?;
      if success {
        SetCircuit(outside.loaded.value, SavedPath(filename));
      } else {
        content := original;
      }
    }

    method SaveOrError(filename: string, outside: Outside) returns (nextStep: Option<NextActionStep>)
      modifies this
      ensures Saved(old(Value()), filename, outside) == Outcome(Value(), nextStep)
    {
      nextStep := None;
      if outside.saveSucceeds {
        saves := saves + [Save(filename, content)];
        saveInformation := SaveInformation(SavedPath(filename), Some(content));
      } else {
        nextStep := Some(SaveFileError(filename));
      }
    }
  }
}
