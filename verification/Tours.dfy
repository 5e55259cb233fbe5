/**
 * The tour editor of pkg/tour-ui/src/engine.ts: a draft and the script it
 * becomes, and the page each of its rows is on, in the editor and in the player.
 */
module Tours {
  import opened Options
  import opened Text
  import opened Plan

  datatype Mode = Walkthrough | Video

  /** A text field that is absent is not one that is empty. */
  datatype TourStep = TourStep(
    body: string, title: Option<string>, selector: Option<string>, navigate: Option<string>,
    action: Option<Action>, advance: Option<Advance>)

  datatype Setup<R> = Setup(includeInTour: bool, rows: seq<R>)

  datatype Script = Script(
    startUrl: string, steps: seq<TourStep>, mode: Option<Mode>, setup: Option<Setup<TourStep>>, title: Option<string>)

  datatype ActKind = NoAct | ClickAct | FillAct

  datatype DraftStep = DraftStep(
    title: string, selector: string, body: string, timing: string, navigate: string, actKind: ActKind, actText: string)

  datatype Draft = Draft(title: string, mode: Mode, rows: seq<DraftStep>, setup: Option<Setup<DraftStep>>)

  // The player.

  datatype Parts = Parts(setup: seq<TourStep>, tutorial: seq<TourStep>)

  function PartitionTourSteps(script: Script): Parts {
    match script.setup
    case None => Parts([], script.steps)
    case Some(Setup(true, rows)) => Parts([], rows + script.steps)
    case Some(Setup(false, rows)) => Parts(rows, script.steps)
  }

  /** An absent or empty address is no address. */
  predicate Goes(navigate: Option<string>) {
    navigate.Some? && navigate.value != ""
  }

  /** The address of the last step up to the index that has one, else where the tour starts. */
  function ExpectedUrl(steps: seq<TourStep>, startUrl: string, count: nat): string
    requires count <= |steps|
  {
    if count == 0 then startUrl
    else if Goes(steps[count - 1].navigate) then steps[count - 1].navigate.value
    else ExpectedUrl(steps, startUrl, count - 1)
  }

  /** What that is: the address of a step before which no later one of them goes anywhere, or the start if none does. */
  lemma {:induction false} ExpectedUrlIs(steps: seq<TourStep>, startUrl: string, count: nat)
    requires count <= |steps|
    ensures var url := ExpectedUrl(steps, startUrl, count);
      if exists i :: 0 <= i < count && Goes(steps[i].navigate) then
        exists i :: 0 <= i < count && steps[i].navigate == Some(url) && url != ""
                    && forall j :: i < j < count ==> steps[j].navigate == None || steps[j].navigate == Some("")
      else url == startUrl
  {
    if count > 0 {
      ExpectedUrlIs(steps, startUrl, count - 1);
      if Goes(steps[count - 1].navigate) {
        assert steps[count - 1].navigate == Some(ExpectedUrl(steps, startUrl, count));
      }
    }
  }

  method ComputeExpectedUrl(steps: seq<TourStep>, startUrl: string, index: nat) returns (url: string)
    ensures url == ExpectedUrl(steps, startUrl, if index < |steps| then index + 1 else |steps|)
  {
    var i := index;
    while i >= 0
      invariant -1 <= i <= index
      invariant ExpectedUrl(steps, startUrl, if i < |steps| then i + 1 else |steps|)
             == ExpectedUrl(steps, startUrl, if index < |steps| then index + 1 else |steps|)
    {
      if i < |steps| && Goes(steps[i].navigate) {
        return steps[i].navigate.value;
      }
      i := i - 1;
    }
    return startUrl;
  }

  // The editor.

  datatype Kind = SetupRow | TutorialRow

  function SetupRows(d: Draft): seq<DraftStep> {
    if d.setup.Some? then d.setup.value.rows else []
  }

  /** All rows under review: the setup first. */
  function ReviewRows(d: Draft): seq<DraftStep> {
    SetupRows(d) + d.rows
  }

  function KindOf(d: Draft, index: nat): Kind {
    if index < |SetupRows(d)| then SetupRow else TutorialRow
  }

  /** Where looking back for an address stops: excluded preparation does not lead into the tutorial. */
  function LowerBound(d: Draft, index: nat): nat {
    if index < |ReviewRows(d)| && KindOf(d, index) == TutorialRow && d.setup.Some? && !d.setup.value.includeInTour
    then |SetupRows(d)| else 0
  }

  function LookBack(rows: seq<DraftStep>, startUrl: string, lowerBound: nat, end: nat): string
    requires end <= |rows|
    decreases end
  {
    if end <= lowerBound then startUrl
    else if Trim(rows[end - 1].navigate) != "" then Trim(rows[end - 1].navigate)
    else LookBack(rows, startUrl, lowerBound, end - 1)
  }

  method EditorInheritedPageUrl(d: Draft, startUrl: string, index: nat) returns (url: string)
    ensures url == LookBack(ReviewRows(d), startUrl, LowerBound(d, index), if index < |ReviewRows(d)| then index else |ReviewRows(d)|)
  {
    var rows := ReviewRows(d);
    var lowerBound := LowerBound(d, index);
    var i := index as int - 1;
    while i >= lowerBound
      invariant i < index
      invariant lowerBound - 1 <= i || i == index - 1
      invariant LookBack(rows, startUrl, lowerBound, if 0 <= i < |rows| then i + 1 else if i < 0 then 0 else |rows|)
             == LookBack(rows, startUrl, lowerBound, if index < |rows| then index else |rows|)
      decreases i
    {
      if i < |rows| {
        var navigate := Trim(rows[i].navigate);
        if navigate != "" {
          return navigate;
        }
      }
      i := i - 1;
    }
    return startUrl;
  }

  function PageOf(rows: seq<DraftStep>, startUrl: string, lowerBound: nat, index: nat): string
    requires index < |rows|
  {
    var own := Trim(rows[index].navigate);
    if own != "" then own else LookBack(rows, startUrl, lowerBound, index)
  }

  function EditorPageUrl(d: Draft, startUrl: string, index: nat): string
    requires index < |ReviewRows(d)|
  {
    PageOf(ReviewRows(d), startUrl, LowerBound(d, index), index)
  }

  // From draft to script and back.

  /** A field of the form: nothing if there is only white space in it. */
  function Filled(s: string): Option<string> {
    if Trim(s) != "" then Some(Trim(s)) else None
  }

  function DraftRowToStep(r: DraftStep): TourStep {
    TourStep(
      Trim(r.body), Filled(r.title), Filled(r.selector), Filled(r.navigate),
      match r.actKind
      case NoAct => None
      case ClickAct => Some(Click)
      case FillAct => Some(Fill(r.actText)),
      ParseAdvance(r.timing))
  }

  function Mapped<A, B>(f: A -> B, xs: seq<A>): (ys: seq<B>)
    ensures |ys| == |xs| && forall i :: 0 <= i < |xs| ==> ys[i] == f(xs[i])
  {
    seq(|xs|, i requires 0 <= i < |xs| => f(xs[i]))
  }

  function StepsOf(rows: seq<DraftStep>): (steps: seq<TourStep>)
    ensures |steps| == |rows|
  {
    Mapped(DraftRowToStep, rows)
  }

  /** A setup without rows is no setup. */
  function SetupToScript(setup: Option<Setup<DraftStep>>): Option<Setup<TourStep>> {
    if setup.Some? && setup.value.rows != [] then Some(Setup(setup.value.includeInTour, StepsOf(setup.value.rows))) else None
  }

  function DraftToScript(startUrl: string, d: Draft): Script {
    Script(
      startUrl, StepsOf(d.rows), Some(d.mode),
      SetupToScript(d.setup),
      Filled(d.title))
  }

  function OrEmpty(s: Option<string>): string {
    if s.Some? then s.value else ""
  }

  function StepToDraftRow(s: TourStep): DraftStep {
    DraftStep(
      OrEmpty(s.title), OrEmpty(s.selector), s.body, FormatAdvance(s.advance), OrEmpty(s.navigate),
      match s.action
      case None => NoAct
      case Some(Click) => ClickAct
      case Some(Fill(_)) => FillAct,
      if s.action.Some? && s.action.value.Fill? then s.action.value.value else "")
  }

  function RowsOf(steps: seq<TourStep>): (rows: seq<DraftStep>)
    ensures |rows| == |steps|
  {
    seq(|steps|, i requires 0 <= i < |steps| => StepToDraftRow(steps[i]))
  }

  function ScriptToDraft(s: Script): Draft {
    Draft(
      OrEmpty(s.title), if s.mode.Some? then s.mode.value else Walkthrough, RowsOf(s.steps),
      SetupToDraft(s.setup))
  }

  function SetupToDraft(setup: Option<Setup<TourStep>>): Option<Setup<DraftStep>> {
    if setup.Some? then Some(Setup(setup.value.includeInTour, RowsOf(setup.value.rows))) else None
  }

  // The pages agree.

  /** The part of the script that plays a row, and the place of the row in it. */
  function PlayedSteps(d: Draft, startUrl: string, index: nat): seq<TourStep> {
    var parts := PartitionTourSteps(DraftToScript(startUrl, d));
    if KindOf(d, index) == SetupRow && !d.setup.value.includeInTour then parts.setup else parts.tutorial
  }

  function PlayedIndex(d: Draft, index: nat): nat {
    if KindOf(d, index) == TutorialRow && d.setup.Some? && !d.setup.value.includeInTour then index - |SetupRows(d)| else index
  }

  /** The rows of the part that plays a row. */
  function PlayedRows(d: Draft, index: nat): seq<DraftStep> {
    if d.setup.Some? && !d.setup.value.includeInTour then
      if KindOf(d, index) == SetupRow then SetupRows(d) else d.rows
    else ReviewRows(d)
  }

  lemma MapJoin<A, B>(f: A -> B, a: seq<A>, b: seq<A>)
    ensures Mapped(f, a + b) == Mapped(f, a) + Mapped(f, b)
  {
    forall i | 0 <= i < |a + b| ensures Mapped(f, a + b)[i] == (Mapped(f, a) + Mapped(f, b))[i] {
      assert (a + b)[i] == if i < |a| then a[i] else b[i - |a|];
    }
  }

  lemma StepsJoin(a: seq<DraftStep>, b: seq<DraftStep>)
    ensures StepsOf(a + b) == StepsOf(a) + StepsOf(b)
  {
    MapJoin(DraftRowToStep, a, b);
  }

  lemma PlayedAre(d: Draft, startUrl: string, index: nat)
    ensures PlayedSteps(d, startUrl, index) == StepsOf(PlayedRows(d, index))
  {
    StepsJoin(SetupRows(d), d.rows);
    if SetupRows(d) == [] {
      assert StepsOf([]) == [];
      assert ReviewRows(d) == d.rows;
    }
  }

  /** The row played at a place is the row reviewed as far behind the point where looking back stops. */
  lemma PlaceOf(d: Draft, index: nat, i: nat)
    requires index < |ReviewRows(d)| && i <= PlayedIndex(d, index)
    ensures LowerBound(d, index) + PlayedIndex(d, index) == index && i < |PlayedRows(d, index)|
    ensures PlayedRows(d, index)[i] == ReviewRows(d)[LowerBound(d, index) + i]
  {
  }

  /** Each step goes where its row says. */
  ghost predicate GoesLike(steps: seq<TourStep>, rows: seq<DraftStep>) {
    |steps| == |rows| && forall i :: 0 <= i < |rows| ==> steps[i].navigate == Filled(rows[i].navigate)
  }

  lemma StepsGo(rows: seq<DraftStep>)
    ensures GoesLike(StepsOf(rows), rows)
  {
  }

  lemma FilledGoes(s: string)
    ensures Goes(Filled(s)) <==> Trim(s) != ""
    ensures Trim(s) != "" ==> Filled(s) == Some(Trim(s))
  {
  }

  /** Looking back over rows meets what looking back over their steps meets. */
  lemma {:induction false} LooksAlike(rows: seq<DraftStep>, played: seq<DraftStep>, steps: seq<TourStep>,
                                      startUrl: string, shift: nat, count: nat)
    requires shift + count <= |rows| && count <= |played| && GoesLike(steps, played)
    requires forall i :: 0 <= i < count ==> played[i] == rows[shift + i]
    ensures LookBack(rows, startUrl, shift, shift + count) == ExpectedUrl(steps, startUrl, count)
  {
    if count > 0 {
      LooksAlike(rows, played, steps, startUrl, shift, count - 1);
      FilledGoes(played[count - 1].navigate);
      assert played[count - 1] == rows[shift + (count - 1)];
    }
  }

  lemma PageAt(rows: seq<DraftStep>, played: seq<DraftStep>, steps: seq<TourStep>, startUrl: string,
               shift: nat, at: nat, index: nat)
    requires shift + at == index < |rows| && at < |played| && GoesLike(steps, played)
    requires forall i :: 0 <= i <= at ==> played[i] == rows[shift + i]
    ensures PageOf(rows, startUrl, shift, index) == ExpectedUrl(steps, startUrl, at + 1)
  {
    LooksAlike(rows, played, steps, startUrl, shift, at);
    assert played[at] == rows[shift + at];
    FilledGoes(played[at].navigate);
  }

  lemma PlacesOf(d: Draft, index: nat)
    requires index < |ReviewRows(d)|
    ensures LowerBound(d, index) + PlayedIndex(d, index) == index && PlayedIndex(d, index) < |PlayedRows(d, index)|
    ensures forall i :: 0 <= i <= PlayedIndex(d, index) ==> PlayedRows(d, index)[i] == ReviewRows(d)[LowerBound(d, index) + i]
  {
    PlaceOf(d, index, PlayedIndex(d, index));
    forall i | 0 <= i <= PlayedIndex(d, index)
      ensures PlayedRows(d, index)[i] == ReviewRows(d)[LowerBound(d, index) + i]
    {
      PlaceOf(d, index, i);
    }
  }

  lemma PageFrom(d: Draft, startUrl: string, index: nat, steps: seq<TourStep>)
    requires index < |ReviewRows(d)| && GoesLike(steps, PlayedRows(d, index))
    ensures PlayedIndex(d, index) < |steps|
    ensures EditorPageUrl(d, startUrl, index) == ExpectedUrl(steps, startUrl, PlayedIndex(d, index) + 1)
  {
    var rows, played, shift, at := ReviewRows(d), PlayedRows(d, index), LowerBound(d, index), PlayedIndex(d, index);
    PlacesOf(d, index);
    assert EditorPageUrl(d, startUrl, index) == PageOf(rows, startUrl, shift, index);
    PageAt(rows, played, steps, startUrl, shift, at, index);
  }

  /**
   * The page the editor shows for a row is the page the player expects for its
   * step, whether there is a setup or none, included in the tour or not.
   */
  lemma PagesAgree(d: Draft, startUrl: string, index: nat)
    requires index < |ReviewRows(d)|
    ensures PlayedIndex(d, index) < |PlayedSteps(d, startUrl, index)|
    ensures EditorPageUrl(d, startUrl, index)
         == ExpectedUrl(PlayedSteps(d, startUrl, index), startUrl, PlayedIndex(d, index) + 1)
  {
    PlayedAre(d, startUrl, index);
    StepsGo(PlayedRows(d, index));
    PageFrom(d, startUrl, index, PlayedSteps(d, startUrl, index));
  }

  // Scripts that come back as they were.

  predicate Neat(s: Option<string>) {
    s.Some? ==> s.value != "" && Trim(s.value) == s.value
  }

  predicate NeatStep(s: TourStep) {
    Trim(s.body) == s.body && Neat(s.title) && Neat(s.selector) && Neat(s.navigate)
  }

  predicate NeatSteps(steps: seq<TourStep>) {
    forall i :: 0 <= i < |steps| ==> NeatStep(steps[i])
  }

  /** Texts trimmed, none empty where it could be absent, a mode, and no setup without rows. */
  predicate Normalized(s: Script) {
    s.mode.Some? && NeatSteps(s.steps) && Neat(s.title) && NeatSetup(s.setup)
  }

  lemma FilledIff(s: Option<string>)
    ensures Filled(OrEmpty(s)) == s <==> Neat(s)
  {
    NothingToTrim("");
  }

  lemma StepComesBackIff(s: TourStep)
    ensures DraftRowToStep(StepToDraftRow(s)) == s <==> NeatStep(s)
  {
    FilledIff(s.title);
    FilledIff(s.selector);
    FilledIff(s.navigate);
    AdvanceRoundTrip(s.advance);
  }

  lemma StepsComeBackIff(steps: seq<TourStep>)
    ensures StepsOf(RowsOf(steps)) == steps <==> NeatSteps(steps)
  {
    forall i | 0 <= i < |steps| ensures StepsOf(RowsOf(steps))[i] == steps[i] <==> NeatStep(steps[i]) {
      StepComesBackIff(steps[i]);
    }
    if StepsOf(RowsOf(steps)) == steps {
      assert forall i :: 0 <= i < |steps| ==> StepsOf(RowsOf(steps))[i] == steps[i];
    }
  }

  predicate NeatSetup(setup: Option<Setup<TourStep>>) {
    setup.Some? ==> setup.value.rows != [] && NeatSteps(setup.value.rows)
  }

  lemma SetupComesBackIff(setup: Option<Setup<TourStep>>)
    ensures SetupToScript(SetupToDraft(setup)) == setup <==> NeatSetup(setup)
  {
    if setup.Some? {
      StepsComeBackIff(setup.value.rows);
      assert RowsOf(setup.value.rows) == [] <==> setup.value.rows == [];
    }
  }

  /** A script read into the editor and written again is the same exactly when it is normalized. */
  lemma ScriptComesBackIff(s: Script)
    ensures DraftToScript(s.startUrl, ScriptToDraft(s)) == s <==> Normalized(s)
  {
    StepsComeBackIff(s.steps);
    FilledIff(s.title);
    SetupComesBackIff(s.setup);
  }

  lemma FilledIsNeat(s: string)
    ensures Neat(Filled(s))
  {
    TrimAgain(s);
  }

  /** Whatever is typed into the editor, the script it gives is normalized, so one more turn changes nothing. */
  lemma DraftsGiveNormalized(startUrl: string, d: Draft)
    ensures Normalized(DraftToScript(startUrl, d))
    ensures var s := DraftToScript(startUrl, d); DraftToScript(startUrl, ScriptToDraft(s)) == s
  {
    var script := DraftToScript(startUrl, d);
    FilledIsNeat(d.title);
    RowsAreNeat(d.rows);
    RowsAreNeat(SetupRows(d));
    ScriptComesBackIff(script);
  }

  lemma RowIsNeat(row: DraftStep)
    ensures NeatStep(DraftRowToStep(row))
  {
    TrimAgain(row.body);
    FilledIsNeat(row.title);
    FilledIsNeat(row.selector);
    FilledIsNeat(row.navigate);
  }

  lemma RowsAreNeat(rows: seq<DraftStep>)
    ensures NeatSteps(StepsOf(rows))
  {
    forall i | 0 <= i < |rows| ensures NeatStep(StepsOf(rows)[i]) {
      RowIsNeat(rows[i]);
    }
  }
}
