/** The two-way check of a report against the records it was made from (scripts/report-proof.ts). */
module ReportLinks {
  import opened RunLog
  import opened Correspondence

  const MAX_STEPS := 12
  const MAX_MODEL_CALLS := 24
  const PROJECTS_OPEN := "projects-open"
  const PROJECTS_PATH := "/project-board/projects"

  datatype Actor = Agent | Human | System

  datatype Action = Click | Navigate | Back | Scroll | Wait | OtherAction(name: string)

  datatype StepKind = ObservationStep | DecisionStep | ActionStep | OtherStep(name: string)

  datatype EvidenceKind = Screenshot | Console | Network | Recording | ObservationText

  datatype Finality = InProgress | Settling | Final | Uncertain

  // ---- The records ----

  datatype Data = Data(
    actor: Option<Actor>, step: Option<nat>, action: Option<Action>, evidenceId: Option<Id>, pageUrl: Option<string>)

  datatype SourceEvent = SourceEvent(sequence: Sequence, timestamp: Timestamp, kind: EventKind, attemptId: Option<Id>, data: Data)

  datatype Step = Step(ordinal: int, kind: StepKind, evidenceId: Id, attemptId: Id)

  datatype Evidence = Evidence(id: Id, runId: Id, attemptId: Id, kind: EvidenceKind, storageKey: string)

  datatype Check = Check(criterion: string, passed: bool)

  datatype Observation = Observation(evidenceId: Id, observationId: string, screenshotKey: Option<string>, checks: seq<Check>)

  datatype Source = Source(
    runId: Id, attemptId: Id, events: seq<SourceEvent>, steps: seq<Step>, evidence: seq<Evidence>, observations: seq<Observation>)

  // ---- The report ----

  datatype TimelineEntry = TimelineEntry(
    sequence: Sequence, timestamp: Timestamp, kind: EventKind,
    actor: Option<Actor>, step: Option<nat>, action: Option<Action>, evidenceId: Option<Id>, page: Option<string>)

  datatype ReportEvidence = ReportEvidence(id: Id, attemptId: Id, kind: EvidenceKind, available: bool)

  datatype Citation = Citation(step: nat, observationId: string, page: Option<string>, evidenceIds: seq<Id>, available: bool)

  datatype Criterion = Criterion(key: string, met: bool, structural: bool, citations: seq<Citation>)

  datatype AgentReport = AgentReport(
    attemptId: Id, personaId: string, status: Status, finality: Finality, launchSettled: bool, closed: bool,
    steps: nat, modelCalls: nat, criteria: seq<Criterion>, timeline: seq<TimelineEntry>,
    evidence: seq<ReportEvidence>, groupSignatures: seq<string>)

  datatype Occurrence = Occurrence(attemptId: Id, personaId: string, evidenceIds: seq<Id>)

  datatype Group = Group(signature: string, occurrences: seq<Occurrence>)

  datatype Report = Report(runId: Id, status: Status, finality: Finality, agents: seq<AgentReport>, groups: seq<Group>)

  // ---- Selections of the source's events ----

  function OwnEvents(events: seq<SourceEvent>, attemptId: Id): (r: seq<SourceEvent>)
    ensures forall e :: e in r <==> e in events && e.attemptId == Some(attemptId)
  {
    if events == [] then []
    else
      assert events == [events[0]] + events[1..];
      (if events[0].attemptId == Some(attemptId) then [events[0]] else []) + OwnEvents(events[1..], attemptId)
  }

  predicate IsStepKind(kind: EventKind) {
    kind == AttemptObservation || kind == AttemptDecision || kind == AttemptAction
  }

  function StepEvents(events: seq<SourceEvent>): (r: seq<SourceEvent>)
    ensures forall e :: e in r <==>
      e in events && (e.kind == AttemptObservation || e.kind == AttemptDecision || e.kind == AttemptAction)
  {
    if events == [] then []
    else
      assert events == [events[0]] + events[1..];
      (if IsStepKind(events[0].kind) then [events[0]] else []) + StepEvents(events[1..])
  }

  function Actions(events: seq<SourceEvent>): (r: seq<SourceEvent>)
    ensures forall e :: e in r <==> e in events && e.kind == AttemptAction
  {
    if events == [] then []
    else
      assert events == [events[0]] + events[1..];
      (if events[0].kind == AttemptAction then [events[0]] else []) + Actions(events[1..])
  }

  // ---- The checks ----

  predicate HeaderAgrees(report: Report, agent: AgentReport, source: Source) {
    && report.runId == source.runId && report.status == Succeeded && report.finality == Final
    && agent.attemptId == source.attemptId && agent.status == Succeeded && agent.finality == Final
    && agent.launchSettled && agent.closed
    && 1 <= agent.steps <= MAX_STEPS && 1 <= agent.modelCalls <= MAX_MODEL_CALLS
  }

  function EvidenceIdOf(e: Evidence): Id { e.id }

  function StorageKeyOf(e: Evidence): string { e.storageKey }

  function ReportEvidenceIdOf(e: ReportEvidence): Id { e.id }

  predicate SameEvidence(item: ReportEvidence, entry: Evidence) {
    entry.id == item.id && entry.attemptId == item.attemptId && entry.kind == item.kind
  }

  predicate EvidenceAgrees(agent: AgentReport, source: Source) {
    && (forall e :: e in source.evidence ==> e.runId == source.runId && e.attemptId == source.attemptId)
    && |SetOf(Map(EvidenceIdOf, source.evidence))| == |source.evidence|
    && |SetOf(Map(StorageKeyOf, source.evidence))| == |source.evidence|
    && |agent.evidence| == |source.evidence|
    && |SetOf(Map(ReportEvidenceIdOf, agent.evidence))| == |agent.evidence|
    && forall item :: item in agent.evidence ==> exists entry :: entry in source.evidence && SameEvidence(item, entry)
  }

  predicate SameMoment(item: TimelineEntry, e: SourceEvent) {
    && item.sequence == e.sequence && item.timestamp == e.timestamp && item.kind == e.kind
    && item.actor == e.data.actor && item.step == e.data.step && item.action == e.data.action
    && item.evidenceId == e.data.evidenceId && item.page == e.data.pageUrl
  }

  predicate TimelineAgrees(agent: AgentReport, events: seq<SourceEvent>) {
    |agent.timeline| == |events| && forall i :: 0 <= i < |events| ==> SameMoment(agent.timeline[i], events[i])
  }

  predicate KindNamed(kind: EventKind, step: StepKind) {
    match step
    case ObservationStep => kind == AttemptObservation
    case DecisionStep => kind == AttemptDecision
    case ActionStep => kind == AttemptAction
    case OtherStep(_) => false
  }

  predicate Available(evidence: seq<ReportEvidence>, id: Id) {
    exists item :: item in evidence && item.id == id && item.available
  }

  predicate StepsAgree(agent: AgentReport, source: Source, stepEvents: seq<SourceEvent>) {
    && |source.steps| == |stepEvents|
    && forall i :: 0 <= i < |source.steps| ==>
         && source.steps[i].attemptId == source.attemptId && source.steps[i].ordinal == i + 1
         && KindNamed(stepEvents[i].kind, source.steps[i].kind)
         && stepEvents[i].data.evidenceId == Some(source.steps[i].evidenceId)
         && Available(agent.evidence, source.steps[i].evidenceId)
  }

  function ObservationSteps(steps: seq<Step>): (r: seq<Step>)
    ensures forall s :: s in r <==> s in steps && s.kind == ObservationStep
  {
    if steps == [] then []
    else
      assert steps == [steps[0]] + steps[1..];
      (if steps[0].kind == ObservationStep then [steps[0]] else []) + ObservationSteps(steps[1..])
  }

  function ObservedEvidenceOf(o: Observation): Id { o.evidenceId }

  function StepEvidenceOf(s: Step): Id { s.evidenceId }

  predicate ObservedAt(o: Observation, s: Step) {
    s.evidenceId == o.evidenceId
  }

  predicate ObservationsAgree(source: Source) {
    && |source.observations| == |ObservationSteps(source.steps)|
    && |SetOf(Map(ObservedEvidenceOf, source.observations))| == |source.observations|
    && forall o :: o in source.observations ==>
         exists s :: s in source.steps && s.kind == ObservationStep && s.evidenceId == o.evidenceId
  }

  predicate OccurrenceAgrees(o: Occurrence, agent: AgentReport, source: Source) {
    && o.attemptId == source.attemptId && o.personaId == agent.personaId
    && forall id :: id in o.evidenceIds ==> exists e :: e in source.evidence && e.id == id
  }

  predicate GroupsAgree(report: Report, agent: AgentReport, source: Source) {
    && (forall g :: g in report.groups ==> g.signature in agent.groupSignatures)
    && (forall g :: g in report.groups ==> forall o :: o in g.occurrences ==> OccurrenceAgrees(o, agent, source))
    && forall signature :: signature in agent.groupSignatures ==> exists g :: g in report.groups && g.signature == signature
  }

  predicate ActionsAgree(agent: AgentReport, actions: seq<SourceEvent>) {
    && |actions| == agent.steps
    && forall i :: 0 <= i < |actions| ==>
         && actions[i].data.actor == Some(Agent) && actions[i].data.step == Some(i + 1)
         && actions[i].data.action.Some? && !actions[i].data.action.value.OtherAction?
  }

  function FindObservation(observations: seq<Observation>, id: string): (r: Option<Observation>)
    ensures r.Some? ==> r.value in observations && r.value.observationId == id
    ensures r.None? ==> forall o :: o in observations ==> o.observationId != id
  {
    if observations == [] then None
    else if observations[0].observationId == id then Some(observations[0])
    else FindObservation(observations[1..], id)
  }

  function FindScreenshot(evidence: seq<Evidence>, key: Option<string>): (r: Option<Evidence>)
    ensures r.Some? ==> r.value in evidence && Some(r.value.storageKey) == key && r.value.kind == Screenshot
    ensures r.None? ==> forall e :: e in evidence && Some(e.storageKey) == key ==> e.kind != Screenshot
  {
    if evidence == [] then None
    else if Some(evidence[0].storageKey) == key && evidence[0].kind == Screenshot then Some(evidence[0])
    else FindScreenshot(evidence[1..], key)
  }

  function FindObservationEvent(events: seq<SourceEvent>, id: Id): (r: Option<SourceEvent>)
    ensures r.Some? ==> r.value in events && r.value.kind == AttemptObservation && r.value.data.evidenceId == Some(id)
    ensures r.None? ==> forall e :: e in events && e.kind == AttemptObservation ==> e.data.evidenceId != Some(id)
  {
    if events == [] then None
    else if events[0].kind == AttemptObservation && events[0].data.evidenceId == Some(id) then Some(events[0])
    else FindObservationEvent(events[1..], id)
  }

  /** `actions.filter((event) => event.sequence < before)`. */
  function ActionsBefore(actions: seq<SourceEvent>, before: Sequence): seq<SourceEvent> {
    if actions == [] then []
    else (if actions[0].sequence < before then [actions[0]] else []) + ActionsBefore(actions[1..], before)
  }

  /** The step of the last of them, 0 without one. */
  function PriorStep(actions: seq<SourceEvent>, before: Sequence): nat {
    var prior := ActionsBefore(actions, before);
    if prior == [] || prior[|prior| - 1].data.step.None? then 0 else prior[|prior| - 1].data.step.value
  }

  predicate CitesExactly(c: Citation, agent: AgentReport, ids: seq<Id>) {
    && |c.evidenceIds| == |ids| && |SetOf(c.evidenceIds)| == |ids|
    && forall id :: id in ids ==> id in c.evidenceIds && Available(agent.evidence, id)
  }

  /** `path` reads the path of a URL; it has none when the text is not a URL. */
  predicate CitationAgrees(
    c: Citation, key: string, agent: AgentReport, source: Source, events: seq<SourceEvent>, path: string -> Option<string>)
  {
    var observation := FindObservation(source.observations, c.observationId);
    && observation.Some?
    && var screenshot := FindScreenshot(source.evidence, observation.value.screenshotKey);
    && var event := FindObservationEvent(events, observation.value.evidenceId);
    && screenshot.Some? && event.Some?
    && path(if c.page.Some? then c.page.value else "") == Some(PROJECTS_PATH)
    && c.page == event.value.data.pageUrl && c.available
    && (exists check :: check in observation.value.checks && check.criterion == key && check.passed)
    && c.step == PriorStep(Actions(events), event.value.sequence)
    && CitesExactly(c, agent, [observation.value.evidenceId, screenshot.value.id])
  }

  predicate CriterionAgrees(agent: AgentReport, source: Source, events: seq<SourceEvent>, path: string -> Option<string>) {
    && |agent.criteria| == 1
    && var criterion := agent.criteria[0];
    && criterion.key == PROJECTS_OPEN && criterion.met && criterion.structural && |criterion.citations| != 0
    && forall c :: c in criterion.citations ==> CitationAgrees(c, criterion.key, agent, source, events, path)
  }

  predicate ExactReportLinks(report: Report, source: Source, path: string -> Option<string>) {
    && |report.agents| == 1
    && var agent := report.agents[0];
    && var events := OwnEvents(source.events, source.attemptId);
    && HeaderAgrees(report, agent, source)
    && EvidenceAgrees(agent, source)
    && TimelineAgrees(agent, events)
    && StepsAgree(agent, source, StepEvents(events))
    && ObservationsAgree(source)
    && GroupsAgree(report, agent, source)
    && ActionsAgree(agent, Actions(events))
    && CriterionAgrees(agent, source, events, path)
  }

  // ---- What each check means ----

  /** The report's item is the record, by id, attempt and kind. */
  predicate Reports(item: ReportEvidence, entry: Evidence) {
    item == ReportEvidence(entry.id, entry.attemptId, entry.kind, item.available)
  }

  ghost predicate SharesEvidence(agent: AgentReport, source: Source) {
    && (forall e :: e in source.evidence ==> e.runId == source.runId && e.attemptId == source.attemptId)
    && Distinct(Map(EvidenceIdOf, source.evidence)) && Distinct(Map(StorageKeyOf, source.evidence))
    && Distinct(Map(ReportEvidenceIdOf, agent.evidence))
    && OneToOne(agent.evidence, source.evidence, Reports)
  }

  /** Checking one direction leaves no evidence of the source unreported, and none reported that the source lacks. */
  lemma EvidenceIsOneToOne(agent: AgentReport, source: Source)
    ensures EvidenceAgrees(agent, source) <==> SharesEvidence(agent, source)
  {
    DistinctBySize(Map(EvidenceIdOf, source.evidence));
    DistinctBySize(Map(StorageKeyOf, source.evidence));
    DistinctBySize(Map(ReportEvidenceIdOf, agent.evidence));
    if EvidenceAgrees(agent, source) { AgreedEvidenceIsShared(agent, source); }
    if SharesEvidence(agent, source) { SharedEvidenceAgrees(agent, source); }
  }

  lemma SharedEvidenceAgrees(agent: AgentReport, source: Source)
    requires OneToOne(agent.evidence, source.evidence, Reports)
    ensures forall item :: item in agent.evidence ==> exists entry :: entry in source.evidence && SameEvidence(item, entry)
  {
    SamePairsSamePartners(agent.evidence, source.evidence, Reports, SameEvidence);
    ReportedEvidenceExists(agent.evidence, source.evidence);
  }

  lemma AgreedEvidenceIsShared(agent: AgentReport, source: Source)
    requires EvidenceAgrees(agent, source) && Distinct(Map(ReportEvidenceIdOf, agent.evidence))
    ensures OneToOne(agent.evidence, source.evidence, Reports)
  {
    forall i | 0 <= i < |agent.evidence| ensures HasPartner(agent.evidence[i], source.evidence, SameEvidence) {
      assert agent.evidence[i] in agent.evidence;
      var entry :| entry in source.evidence && SameEvidence(agent.evidence[i], entry);
      var j :| 0 <= j < |source.evidence| && source.evidence[j] == entry;
    }
    CountedIsOneToOne(agent.evidence, source.evidence, SameEvidence, ReportEvidenceIdOf, EvidenceIdOf);
    SamePairsSamePartners(agent.evidence, source.evidence, SameEvidence, Reports);
  }

  lemma ReportedEvidenceExists(items: seq<ReportEvidence>, entries: seq<Evidence>)
    requires OneToOne(items, entries, SameEvidence)
    ensures forall item :: item in items ==> exists entry :: entry in entries && SameEvidence(item, entry)
  {
    forall item | item in items ensures exists entry :: entry in entries && SameEvidence(item, entry) {
      var i :| 0 <= i < |items| && items[i] == item;
      assert HasOnePartner(items[i], entries, SameEvidence);
      var j :| 0 <= j < |entries| && SameEvidence(item, entries[j]);
    }
  }

  ghost predicate PairsObservations(source: Source) {
    && Distinct(Map(StepEvidenceOf, ObservationSteps(source.steps)))
    && OneToOne(source.observations, ObservationSteps(source.steps), ObservedAt)
  }

  /** An observation has exactly one observation step and an observation step exactly one observation: as a consequence
      no two observation steps share their evidence, which is nowhere checked. */
  lemma ObservationsAreOneToOne(source: Source)
    ensures ObservationsAgree(source) <==> PairsObservations(source)
  {
    var os, ss := source.observations, ObservationSteps(source.steps);
    DistinctBySize(Map(ObservedEvidenceOf, os));
    if ObservationsAgree(source) {
      ObservationsHaveSteps(source);
      CountedIsOneToOne(os, ss, ObservedAt, ObservedEvidenceOf, StepEvidenceOf);
    }
    if Distinct(Map(StepEvidenceOf, ss)) && OneToOne(os, ss, ObservedAt) {
      ObservedEvidenceIsDistinct(os, ss);
      StepsOfObservations(source);
    }
  }

  lemma ObservationsHaveSteps(source: Source)
    requires ObservationsAgree(source)
    ensures var os := source.observations;
            forall i :: 0 <= i < |os| ==> HasPartner(os[i], ObservationSteps(source.steps), ObservedAt)
  {
    var os, ss := source.observations, ObservationSteps(source.steps);
    forall i | 0 <= i < |os| ensures HasPartner(os[i], ss, ObservedAt) {
      assert os[i] in os;
      var s :| s in source.steps && s.kind == ObservationStep && s.evidenceId == os[i].evidenceId;
      var j :| 0 <= j < |ss| && ss[j] == s;
    }
  }

  lemma StepsOfObservations(source: Source)
    requires OneToOne(source.observations, ObservationSteps(source.steps), ObservedAt)
    ensures forall o :: o in source.observations ==>
      exists s :: s in source.steps && s.kind == ObservationStep && s.evidenceId == o.evidenceId
  {
    var os, ss := source.observations, ObservationSteps(source.steps);
    forall o | o in os ensures exists s :: s in source.steps && s.kind == ObservationStep && s.evidenceId == o.evidenceId {
      var i :| 0 <= i < |os| && os[i] == o;
      assert HasOnePartner(os[i], ss, ObservedAt);
      var j :| 0 <= j < |ss| && ObservedAt(o, ss[j]);
      assert ss[j] in ss;
    }
  }

  lemma ObservedEvidenceIsDistinct(os: seq<Observation>, ss: seq<Step>)
    requires OneToOne(os, ss, ObservedAt)
    ensures Distinct(Map(ObservedEvidenceOf, os))
  {
    forall i, j | 0 <= i < |os| && 0 <= j < |os| && os[i].evidenceId == os[j].evidenceId ensures i == j {
      assert HasOnePartner(os[i], ss, ObservedAt);
      var k :| 0 <= k < |ss| && ObservedAt(os[i], ss[k]);
      assert HasOneSource(os, ss[k], ObservedAt);
      assert ObservedAt(os[j], ss[k]);
    }
  }

  ghost predicate NamesTheGroups(report: Report, agent: AgentReport, source: Source) {
    && (set g | g in report.groups :: g.signature) == SetOf(agent.groupSignatures)
    && forall g, o :: g in report.groups && o in g.occurrences ==>
         && o.attemptId == source.attemptId && o.personaId == agent.personaId
         && SetOf(o.evidenceIds) <= SetOf(Map(EvidenceIdOf, source.evidence))
  }

  /** Both sides name the same signatures, and every occurrence belongs to this attempt and cites its evidence. */
  lemma GroupsAreTheAgents(report: Report, agent: AgentReport, source: Source)
    ensures GroupsAgree(report, agent, source) <==> NamesTheGroups(report, agent, source)
  {
    forall o: Occurrence
      ensures SetOf(o.evidenceIds) <= SetOf(Map(EvidenceIdOf, source.evidence)) <==>
        forall id :: id in o.evidenceIds ==> exists e :: e in source.evidence && e.id == id
    {
      KnownIds(o.evidenceIds, source.evidence);
    }
    var signatures := set g | g in report.groups :: g.signature;
    if GroupsAgree(report, agent, source) {
      assert forall s :: s in signatures <==> s in SetOf(agent.groupSignatures);
    }
    if signatures == SetOf(agent.groupSignatures) {
      forall g | g in report.groups ensures g.signature in agent.groupSignatures {
        assert g.signature in signatures;
      }
      forall s | s in agent.groupSignatures ensures exists g :: g in report.groups && g.signature == s {
        assert s in signatures;
      }
    }
  }

  lemma KnownIds(ids: seq<Id>, evidence: seq<Evidence>)
    ensures SetOf(ids) <= SetOf(Map(EvidenceIdOf, evidence)) <==>
      forall id :: id in ids ==> exists e :: e in evidence && e.id == id
  {
    var known := Map(EvidenceIdOf, evidence);
    forall id ensures id in known <==> exists e :: e in evidence && e.id == id {
      if e :| e in evidence && e.id == id {
        var i :| 0 <= i < |evidence| && evidence[i] == e;
        assert known[i] == id;
      }
      if id in known {
        var i :| 0 <= i < |known| && known[i] == id;
        assert evidence[i] in evidence;
      }
    }
    assert forall id :: id in SetOf(known) <==> id in known;
    assert forall id :: id in SetOf(ids) <==> id in ids;
  }

  // ---- Steps ----

  predicate Evidenced(e: SourceEvent) {
    IsStepKind(e.kind) && e.data.evidenceId.Some?
  }

  function StepAt(e: SourceEvent, i: nat, attemptId: Id): Step
    requires Evidenced(e)
  {
    var kind :=
      if e.kind == AttemptObservation then ObservationStep
      else if e.kind == AttemptDecision then DecisionStep
      else ActionStep;
    Step(i + 1, kind, e.data.evidenceId.value, attemptId)
  }

  function StepsOf(events: seq<SourceEvent>, attemptId: Id): seq<Step>
    requires forall i :: 0 <= i < |events| ==> Evidenced(events[i])
  {
    seq(|events|, i requires 0 <= i < |events| => StepAt(events[i], i, attemptId))
  }

  /** One step is the one its event determines. */
  lemma StepIsTheEvent(s: Step, e: SourceEvent, i: nat, attemptId: Id)
    requires IsStepKind(e.kind)
    ensures s.attemptId == attemptId && s.ordinal == i + 1 && KindNamed(e.kind, s.kind)
        && e.data.evidenceId == Some(s.evidenceId)
      <==> Evidenced(e) && s == StepAt(e, i, attemptId)
  {
  }

  predicate RecordsTheSteps(agent: AgentReport, source: Source, stepEvents: seq<SourceEvent>) {
    && (forall i :: 0 <= i < |stepEvents| ==> Evidenced(stepEvents[i]))
    && source.steps == StepsOf(stepEvents, source.attemptId)
    && forall i :: 0 <= i < |source.steps| ==> CanBeOpened(agent, source.steps[i].evidenceId)
  }

  /** The report says that the record is available. */
  predicate CanBeOpened(agent: AgentReport, id: Id) {
    exists item :: item in agent.evidence && item == ReportEvidence(id, item.attemptId, item.kind, true)
  }

  /** The step events determine all the steps, their order and their numbers. */
  lemma StepsAreTheEvents(agent: AgentReport, source: Source, events: seq<SourceEvent>)
    ensures StepsAgree(agent, source, StepEvents(events)) <==> RecordsTheSteps(agent, source, StepEvents(events))
  {
    var stepEvents := StepEvents(events);
    forall i | 0 <= i < |stepEvents| ensures IsStepKind(stepEvents[i].kind) {
      assert stepEvents[i] in stepEvents;
    }
    if StepsAgree(agent, source, stepEvents) { AgreedStepsAreRecorded(agent, source, stepEvents); }
    if RecordsTheSteps(agent, source, stepEvents) { RecordedStepsAgree(agent, source, stepEvents); }
  }

  lemma AgreedStepsAreRecorded(agent: AgentReport, source: Source, stepEvents: seq<SourceEvent>)
    requires StepsAgree(agent, source, stepEvents)
    requires forall i :: 0 <= i < |stepEvents| ==> IsStepKind(stepEvents[i].kind)
    ensures RecordsTheSteps(agent, source, stepEvents)
  {
    forall i | 0 <= i < |stepEvents|
      ensures Evidenced(stepEvents[i]) && source.steps[i] == StepAt(stepEvents[i], i, source.attemptId)
    {
      StepIsTheEvent(source.steps[i], stepEvents[i], i, source.attemptId);
    }
  }

  lemma RecordedStepsAgree(agent: AgentReport, source: Source, stepEvents: seq<SourceEvent>)
    requires RecordsTheSteps(agent, source, stepEvents)
    ensures StepsAgree(agent, source, stepEvents)
  {
  }

  function LineOf(e: SourceEvent): TimelineEntry {
    TimelineEntry(e.sequence, e.timestamp, e.kind, e.data.actor, e.data.step, e.data.action, e.data.evidenceId, e.data.pageUrl)
  }

  // ---- Citations ----

  predicate InOrder(events: seq<SourceEvent>) {
    forall i, j :: 0 <= i < j < |events| ==> events[i].sequence < events[j].sequence
  }

  lemma {:induction false} BeforeIsPrefix(actions: seq<SourceEvent>, before: Sequence) returns (n: nat)
    requires InOrder(actions)
    ensures n <= |actions| && ActionsBefore(actions, before) == actions[..n]
    ensures forall i :: 0 <= i < |actions| ==> (actions[i].sequence < before <==> i < n)
  {
    if actions == [] {
      n := 0;
    } else {
      var m := BeforeIsPrefix(actions[1..], before);
      if actions[0].sequence < before {
        n := m + 1;
        assert actions[..n] == [actions[0]] + actions[1..][..m];
      } else {
        n := 0;
        assert m == 0;
      }
      forall i | 0 <= i < |actions| ensures actions[i].sequence < before <==> i < n {
        if i > 0 { assert actions[1..][i - 1] == actions[i]; }
      }
    }
  }

  lemma {:induction false} ActionsInOrder(events: seq<SourceEvent>)
    requires InOrder(events)
    ensures InOrder(Actions(events))
  {
    if events != [] {
      var rest := Actions(events[1..]);
      ActionsInOrder(events[1..]);
      forall i | 0 <= i < |rest| && events[0].kind == AttemptAction ensures events[0].sequence < rest[i].sequence {
        assert rest[i] in events[1..];
      }
    }
  }

  /** `step` actions were taken before, and they are the first ones. */
  predicate CountsActions(actions: seq<SourceEvent>, before: Sequence, step: nat) {
    step <= |actions| && forall i :: 0 <= i < |actions| ==> (actions[i].sequence < before <==> i < step)
  }

  /** The step a citation must carry is the number of actions taken before its observation: the actions before it are
      exactly the first that many. */
  lemma CitedStepCountsActions(agent: AgentReport, events: seq<SourceEvent>, before: Sequence, step: nat)
    requires InOrder(events) && ActionsAgree(agent, Actions(events))
    ensures step == PriorStep(Actions(events), before) <==> CountsActions(Actions(events), before, step)
  {
    ActionsInOrder(events);
    var actions := Actions(events);
    var n := BeforeIsPrefix(actions, before);
    assert n == PriorStep(actions, before);
    CountIs(actions, before, n, step);
  }

  lemma CountIs(actions: seq<SourceEvent>, before: Sequence, n: nat, step: nat)
    requires CountsActions(actions, before, n)
    ensures CountsActions(actions, before, step) <==> step == n
  {
    var k := Min(step, n);
    if k < |actions| { assert actions[k].sequence < before <==> k < n; }
  }

  /** Two records are cited: the observation's and the screenshot's; or, when those are one, that one and any other id. */
  ghost predicate CitesTwoRecords(c: Citation, agent: AgentReport, observed: Id, screenshot: Id) {
    && |c.evidenceIds| == 2 && CanBeOpened(agent, observed) && CanBeOpened(agent, screenshot)
    && if observed != screenshot then SetOf(c.evidenceIds) == {observed, screenshot}
       else Distinct(c.evidenceIds) && observed in c.evidenceIds
  }

  lemma CitesExactlyTwoRecords(c: Citation, agent: AgentReport, observed: Id, screenshot: Id)
    ensures CitesExactly(c, agent, [observed, screenshot]) <==> CitesTwoRecords(c, agent, observed, screenshot)
  {
    var ids := [observed, screenshot];
    assert ids[0] in ids && ids[1] in ids;
    DistinctBySize(c.evidenceIds);
    if CitesExactly(c, agent, ids) {
      CitedEvidenceIsExact(c, agent, observed, screenshot);
    }
    if CitesTwoRecords(c, agent, observed, screenshot) && observed != screenshot {
      assert observed in SetOf(c.evidenceIds) && screenshot in SetOf(c.evidenceIds);
    }
  }

  /** A citation names exactly its observation and its screenshot, unless those two are one and the same record. */
  lemma CitedEvidenceIsExact(c: Citation, agent: AgentReport, observed: Id, screenshot: Id)
    requires CitesExactly(c, agent, [observed, screenshot])
    ensures SetOf(c.evidenceIds) == {observed, screenshot} <==> observed != screenshot
    ensures Available(agent.evidence, observed) && Available(agent.evidence, screenshot)
  {
    var ids := [observed, screenshot];
    assert ids[0] in ids && ids[1] in ids;
    var cited := SetOf(c.evidenceIds);
    assert {observed, screenshot} <= cited;
    if observed != screenshot {
      assert |{observed, screenshot}| == 2;
      SubsetBySize({observed, screenshot}, cited);
    } else {
      assert {observed, screenshot} == {observed};
    }
  }

  // ---- The whole report ----

  /** A citation stands for an observation of the projects page whose check passed: it has that page, the number of
      actions taken before it, and its two records. */
  ghost predicate CitesTheObservation(
    c: Citation, key: string, agent: AgentReport, source: Source, events: seq<SourceEvent>, path: string -> Option<string>)
  {
    var observation := FindObservation(source.observations, c.observationId);
    && observation.Some?
    && var screenshot := FindScreenshot(source.evidence, observation.value.screenshotKey);
    && var event := FindObservationEvent(events, observation.value.evidenceId);
    && screenshot.Some? && event.Some?
    && c.available && c.page == event.value.data.pageUrl
    && path(if c.page.Some? then c.page.value else "") == Some("/project-board/projects")
    && (exists check :: check in observation.value.checks && check.criterion == key && check.passed)
    && CountsActions(Actions(events), event.value.sequence, c.step)
    && CitesTwoRecords(c, agent, observation.value.evidenceId, screenshot.value.id)
  }

  /** The run and its one attempt succeeded for good, within their limits, and nothing of them is left. */
  predicate IsFinal(report: Report, agent: AgentReport, source: Source) {
    && report == Report(source.runId, Succeeded, Final, report.agents, report.groups)
    && agent.attemptId == source.attemptId && agent.status == Succeeded && agent.finality == Final
    && agent.launchSettled && agent.closed && 1 <= agent.steps <= 12 && 1 <= agent.modelCalls <= 24
  }

  lemma HeaderIs(report: Report, agent: AgentReport, source: Source)
    ensures HeaderAgrees(report, agent, source) <==> IsFinal(report, agent, source)
  {
  }

  lemma ActionsAre(agent: AgentReport, actions: seq<SourceEvent>)
    ensures ActionsAgree(agent, actions) <==> NumbersTheActions(agent, actions)
  {
    forall d: Data
      ensures (d.action.Some? && !d.action.value.OtherAction?) <==>
        (d.action == Some(Click) || d.action == Some(Navigate) || d.action == Some(Back) || d.action == Some(Scroll)
         || d.action == Some(Wait))
    {
    }
  }

  /** The agent's own actions, one for each step, in order, of the five kinds there are. */
  predicate NumbersTheActions(agent: AgentReport, actions: seq<SourceEvent>) {
    && agent.steps == |actions|
    && forall i :: 0 <= i < |actions| ==>
         var d := actions[i].data;
         d.actor == Some(Agent) && d.step == Some(i + 1) &&
         (d.action == Some(Click) || d.action == Some(Navigate) || d.action == Some(Back) || d.action == Some(Scroll)
          || d.action == Some(Wait))
  }

  /** What an accepted report is. */
  ghost predicate MirrorsSource(report: Report, source: Source, path: string -> Option<string>) {
    && |report.agents| == 1
    && var agent := report.agents[0];
    && var events := OwnEvents(source.events, source.attemptId);
    && IsFinal(report, agent, source)
    && SharesEvidence(agent, source)
    && agent.timeline == Map(LineOf, events)
    && RecordsTheSteps(agent, source, StepEvents(events))
    && PairsObservations(source)
    && NamesTheGroups(report, agent, source)
    && NumbersTheActions(agent, Actions(events))
    && MeetsTheCriterion(agent, source, events, path)
  }

  ghost predicate MeetsTheCriterion(agent: AgentReport, source: Source, events: seq<SourceEvent>, path: string -> Option<string>) {
    && |agent.criteria| == 1
    && var criterion := agent.criteria[0];
    && criterion.key == "projects-open" && criterion.met && criterion.structural && criterion.citations != []
    && forall c :: c in criterion.citations ==> CitesTheObservation(c, criterion.key, agent, source, events, path)
  }

  lemma CitationIsTheObservation(
    c: Citation, key: string, agent: AgentReport, source: Source, events: seq<SourceEvent>, path: string -> Option<string>)
    requires InOrder(events) && ActionsAgree(agent, Actions(events))
    ensures CitationAgrees(c, key, agent, source, events, path) <==> CitesTheObservation(c, key, agent, source, events, path)
  {
    var observation := FindObservation(source.observations, c.observationId);
    if observation.Some? {
      var screenshot := FindScreenshot(source.evidence, observation.value.screenshotKey);
      var event := FindObservationEvent(events, observation.value.evidenceId);
      if screenshot.Some? && event.Some? {
        CitesExactlyTwoRecords(c, agent, observation.value.evidenceId, screenshot.value.id);
        CitedStepCountsActions(agent, events, event.value.sequence, c.step);
      }
    }
  }

  /** A report is accepted exactly when it mirrors its source: evidence one to one, timeline, steps, observations, groups,
      and every citation with its page, its step and its two records. */
  lemma AcceptedReportMirrorsSource(report: Report, source: Source, path: string -> Option<string>)
    requires InOrder(OwnEvents(source.events, source.attemptId))
    ensures ExactReportLinks(report, source, path) <==> MirrorsSource(report, source, path)
  {
    if |report.agents| == 1 {
      var agent := report.agents[0];
      var events := OwnEvents(source.events, source.attemptId);
      HeaderIs(report, agent, source);
      ActionsAre(agent, Actions(events));
      EvidenceIsOneToOne(agent, source);
      StepsAreTheEvents(agent, source, events);
      ObservationsAreOneToOne(source);
      GroupsAreTheAgents(report, agent, source);
      if ActionsAgree(agent, Actions(events)) { CriterionIsTheObservations(agent, source, events, path); }
    }
  }

  lemma CriterionIsTheObservations(agent: AgentReport, source: Source, events: seq<SourceEvent>, path: string -> Option<string>)
    requires InOrder(events) && ActionsAgree(agent, Actions(events))
    ensures CriterionAgrees(agent, source, events, path) <==> MeetsTheCriterion(agent, source, events, path)
  {
    if |agent.criteria| == 1 {
      var criterion := agent.criteria[0];
      forall c
        ensures CitationAgrees(c, criterion.key, agent, source, events, path) <==>
          CitesTheObservation(c, criterion.key, agent, source, events, path)
      {
        CitationIsTheObservation(c, criterion.key, agent, source, events, path);
      }
    }
  }

  /** So an accepted report and its source hold the same evidence; every observation and every finding rests on evidence
      that both hold. */
  lemma AcceptedReportRestsOnEvidence(report: Report, source: Source, path: string -> Option<string>)
    requires ExactReportLinks(report, source, path)
    ensures var agent := report.agents[0];
            && SetOf(Map(ReportEvidenceIdOf, agent.evidence)) == SetOf(Map(EvidenceIdOf, source.evidence))
            && (forall o :: o in source.observations ==> CanBeOpened(agent, o.evidenceId))
            && (forall g, o, id :: g in report.groups && o in g.occurrences && id in o.evidenceIds ==>
                  id in SetOf(Map(ReportEvidenceIdOf, agent.evidence)))
  {
    var agent := report.agents[0];
    EvidenceIsOneToOne(agent, source);
    SamePairsSamePartners(agent.evidence, source.evidence, Reports, SameEvidence);
    MatchedIdsAreEqual(agent.evidence, source.evidence);
    forall o | o in source.observations ensures CanBeOpened(agent, o.evidenceId) {
      ObservationIsAvailable(agent, source, StepEvents(OwnEvents(source.events, source.attemptId)), o);
    }
    GroupsAreTheAgents(report, agent, source);
  }

  lemma ObservationIsAvailable(agent: AgentReport, source: Source, stepEvents: seq<SourceEvent>, o: Observation)
    requires StepsAgree(agent, source, stepEvents) && ObservationsAgree(source) && o in source.observations
    ensures Available(agent.evidence, o.evidenceId)
  {
    var s :| s in source.steps && s.kind == ObservationStep && s.evidenceId == o.evidenceId;
    var i :| 0 <= i < |source.steps| && source.steps[i] == s;
  }

  lemma MatchedIdsAreEqual(items: seq<ReportEvidence>, entries: seq<Evidence>)
    requires OneToOne(items, entries, SameEvidence)
    ensures SetOf(Map(ReportEvidenceIdOf, items)) == SetOf(Map(EvidenceIdOf, entries))
  {
    var reported, known := Map(ReportEvidenceIdOf, items), Map(EvidenceIdOf, entries);
    forall id | id in reported ensures id in known {
      var i :| 0 <= i < |items| && reported[i] == id;
      assert HasOnePartner(items[i], entries, SameEvidence);
      var j :| 0 <= j < |entries| && SameEvidence(items[i], entries[j]);
      assert known[j] == id;
    }
    forall id | id in known ensures id in reported {
      var j :| 0 <= j < |entries| && known[j] == id;
      var i := SourceOf(items, entries[j], SameEvidence);
      assert reported[i] == id;
    }
  }

  // ---- Where a citation is not exact ----

  /** One action, one observation, and one record that is both the observation's evidence and its screenshot. */
  function OneRecordSource(run: Id, attempt: Id, record: Id, page: string): Source {
    Source(run, attempt,
      [SourceEvent(1, "", AttemptAction, Some(attempt), Data(Some(Agent), Some(1), Some(Click), Some(record), Some(page))),
       SourceEvent(2, "", AttemptObservation, Some(attempt), Data(Some(Agent), Some(1), None, Some(record), Some(page)))],
      [Step(1, ActionStep, record, attempt), Step(2, ObservationStep, record, attempt)],
      [Evidence(record, run, attempt, Screenshot, "key")],
      [Observation(record, "seen", Some("key"), [Check(PROJECTS_OPEN, true)])])
  }

  function OneRecordReport(run: Id, attempt: Id, record: Id, page: string, cited: seq<Id>): Report {
    Report(run, Succeeded, Final,
      [AgentReport(attempt, "", Succeeded, Final, true, true, 1, 1,
         [Criterion(PROJECTS_OPEN, true, true, [Citation(1, "seen", Some(page), cited, true)])],
         [TimelineEntry(1, "", AttemptAction, Some(Agent), Some(1), Some(Click), Some(record), Some(page)),
          TimelineEntry(2, "", AttemptObservation, Some(Agent), Some(1), None, Some(record), Some(page))],
         [ReportEvidence(record, attempt, Screenshot, true)], [])],
      [])
  }

  lemma PairEvents(a: SourceEvent, b: SourceEvent, attempt: Id)
    requires a.attemptId == Some(attempt) == b.attemptId && a.kind == AttemptAction && b.kind == AttemptObservation
    requires b.data.evidenceId.Some?
    ensures OwnEvents([a, b], attempt) == [a, b] && StepEvents([a, b]) == [a, b] && Actions([a, b]) == [a]
    ensures FindObservationEvent([a, b], b.data.evidenceId.value) == Some(b)
    ensures ActionsBefore([a], b.sequence) == if a.sequence < b.sequence then [a] else []
  {
    var all, tail := [a, b], [b];
    assert all[1..] == tail && tail[1..] == [];
    assert OwnEvents(tail, attempt) == tail && StepEvents(tail) == tail;
    assert Actions(tail) == Actions(tail[1..]) == [];
    assert OwnEvents(all, attempt) == [a] + tail && StepEvents(all) == [a] + tail;
  }

  lemma SingletonSize<T>(s: seq<T>)
    requires |s| == 1
    ensures |SetOf(s)| == 1
  {
    DistinctBySize(s);
  }

  lemma OneRecordCitationAgrees(run: Id, attempt: Id, record: Id, page: string, cited: seq<Id>, path: string -> Option<string>)
    requires |cited| == 2 && Distinct(cited) && cited[0] == record && path(page) == Some(PROJECTS_PATH)
    ensures var source := OneRecordSource(run, attempt, record, page);
            var agent := OneRecordReport(run, attempt, record, page, cited).agents[0];
            CitationAgrees(agent.criteria[0].citations[0], PROJECTS_OPEN, agent, source, source.events, path)
  {
    var source := OneRecordSource(run, attempt, record, page);
    var agent := OneRecordReport(run, attempt, record, page, cited).agents[0];
    PairEvents(source.events[0], source.events[1], attempt);
    DistinctBySize(cited);
    assert agent.evidence[0] in agent.evidence;
    var o := source.observations[0];
    assert o.checks[0] in o.checks;
    assert FindObservation(source.observations, o.observationId) == Some(o);
    assert FindScreenshot(source.evidence, o.screenshotKey) == Some(source.evidence[0]);
  }

  /** Such a report is accepted while it also cites a record that does not exist. */
  lemma ForeignCitationCanPass(run: Id, attempt: Id, record: Id, foreign: Id, page: string, path: string -> Option<string>)
    requires record != foreign && path(page) == Some(PROJECTS_PATH)
    ensures ExactReportLinks(
              OneRecordReport(run, attempt, record, page, [record, foreign]), OneRecordSource(run, attempt, record, page), path)
    ensures !exists e :: e in OneRecordSource(run, attempt, record, page).evidence && e.id == foreign
  {
    var source := OneRecordSource(run, attempt, record, page);
    var cited := [record, foreign];
    var report := OneRecordReport(run, attempt, record, page, cited);
    OneRecordLinks(source, report, report.agents[0], run, attempt, record, page, cited);
    OneRecordCriterion(run, attempt, record, page, cited, path);
    PairEvents(source.events[0], source.events[1], attempt);
  }

  lemma OneRecordCriterion(run: Id, attempt: Id, record: Id, page: string, cited: seq<Id>, path: string -> Option<string>)
    requires |cited| == 2 && Distinct(cited) && cited[0] == record && path(page) == Some(PROJECTS_PATH)
    ensures var source := OneRecordSource(run, attempt, record, page);
            CriterionAgrees(OneRecordReport(run, attempt, record, page, cited).agents[0], source, source.events, path)
  {
    OneRecordCitationAgrees(run, attempt, record, page, cited, path);
  }

  lemma OneRecordLinks(
    source: Source, report: Report, agent: AgentReport, run: Id, attempt: Id, record: Id, page: string, cited: seq<Id>)
    requires source == OneRecordSource(run, attempt, record, page)
    requires report == OneRecordReport(run, attempt, record, page, cited) && agent == report.agents[0]
    ensures HeaderAgrees(report, agent, source) && TimelineAgrees(agent, source.events) && GroupsAgree(report, agent, source)
    ensures StepsAgree(agent, source, source.events) && ActionsAgree(agent, [source.events[0]])
    ensures EvidenceAgrees(agent, source) && ObservationsAgree(source)
  {
    assert agent.evidence[0] in agent.evidence;
    OneRecordEvidence(source, agent.evidence, agent, run, attempt, record, page);
    OneRecordObservation(source, run, attempt, record, page);
  }

  lemma OneRecordEvidence(
    source: Source, evidence: seq<ReportEvidence>, agent: AgentReport, run: Id, attempt: Id, record: Id, page: string)
    requires source == OneRecordSource(run, attempt, record, page)
    requires agent.evidence == evidence == [ReportEvidence(record, attempt, Screenshot, true)]
    ensures EvidenceAgrees(agent, source)
  {
    SingletonSize(Map(EvidenceIdOf, source.evidence));
    SingletonSize(Map(StorageKeyOf, source.evidence));
    SingletonSize(Map(ReportEvidenceIdOf, evidence));
    assert source.evidence[0] in source.evidence;
  }

  lemma OneRecordObservation(source: Source, run: Id, attempt: Id, record: Id, page: string)
    requires source == OneRecordSource(run, attempt, record, page)
    ensures ObservationsAgree(source)
  {
    SingletonSize(Map(ObservedEvidenceOf, source.observations));
    assert source.steps[1] in source.steps;
    var tail := source.steps[1..];
    assert tail == [source.steps[1]] && tail[1..] == [];
    assert ObservationSteps(tail) == tail && ObservationSteps(source.steps) == tail;
  }
}
