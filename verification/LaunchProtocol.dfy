/** The launch form of src/components/launch.tsx with the tab it lives in, a network that loses and delays, and a
    server with one run per owner and key; what is saved is read back as in src/lib/launch-request.ts. */
module LaunchProtocol {
  import opened RunLog

  datatype Path = Website | Controlled

  datatype Launch = Launch(ownerId: Id, key: Id, path: Path, body: string)

  /** What a run is identified by. */
  datatype Slot = Slot(ownerId: Id, key: Id)

  function SlotOf(l: Launch): Slot { Slot(l.ownerId, l.key) }

  // ---- The form and its tab ----

  /** The one item of session storage: absent, a saved request, or a text that does not parse. */
  datatype Item = Absent | Saved(request: Launch) | Unreadable

  datatype Call = Call(id: nat, request: Launch, reconciling: bool)

  datatype Form = Form(ownerId: Id, pending: Option<Launch>, inFlight: Option<Call>, storageError: bool)

  datatype Reply = Run(id: nat) | Refusal(status: nat)

  /** The statuses after which a first send is known to have been refused. */
  const DEFINITE := {400, 401, 403, 404, 413, 415, 422, 429}

  /** A saved request counts only for the owner it was saved for. */
  function ReadPending(item: Item, ownerId: Id): Option<Launch> {
    if item.Saved? && item.request.ownerId == ownerId then Some(item.request) else None
  }

  /** Mounting: the recovery effect reads what an earlier page left. */
  function Mounted(item: Item, ownerId: Id): Form {
    Form(ownerId, ReadPending(item, ownerId), None, item != Absent && ReadPending(item, ownerId).None?)
  }

  function Send(form: Form, item: Item, call: Call, storageWorks: bool): (Form, Item) {
    if form.inFlight.Some? then (form, item)
    else if !storageWorks then (form.(storageError := true), item)
    else (form.(pending := Some(call.request), inFlight := Some(call)), Saved(call.request))
  }

  predicate MaySubmit(form: Form) {
    form.pending.None? && form.inFlight.None? && !form.storageError
  }

  predicate Clears(call: Call, reply: Reply) {
    reply.Run? || (!call.reconciling && reply.status in DEFINITE)
  }

  /** A reply, to the form that is shown: a run, or an error with its status. */
  function Answered(form: Form, item: Item, call: Call, reply: Reply): (Form, Item) {
    var freed := form.(inFlight := None);
    if reply.Run? then (freed, Absent)
    else if !call.reconciling && reply.status in DEFINITE then (freed.(pending := None), Absent)
    else (freed, item)
  }

  class LaunchForm {
    const ownerId: Id
    var pending: Option<Launch>
    var inFlight: Option<Call>
    var storageError: bool
    var item: Item

    ghost function View(): (Form, Item)
      reads this
    {
      (Form(ownerId, pending, inFlight, storageError), item)
    }

    /** While a call runs its request is saved; nothing else is saved than what is pending, or new launches are blocked. */
    ghost predicate Valid()
      reads this
    {
      && (inFlight.Some? ==> item == Saved(inFlight.value.request) && pending == Some(inFlight.value.request))
      && (item != Absent ==> (item.Saved? && pending == Some(item.request)) || (pending.None? && storageError))
    }

    constructor (ownerId: Id, item: Item)
      ensures View() == (Mounted(item, ownerId), item)
      ensures Valid() && inFlight.None? && (MaySubmit(View().0) <==> item == Absent)
      ensures pending == if item.Saved? && item.request.ownerId == ownerId then Some(item.request) else None
      ensures storageError <==> item != Absent && pending.None?
    {
      this.ownerId, this.item := ownerId, item;
      pending, inFlight, storageError := None, None, false;
      new;
      if item != Absent {
        pending := ReadPending(item, ownerId);
        if pending.None? { storageError := true; }
      }
    }

    /** Called for a new request when nothing is pending, or for the pending one. */
    method SendRequest(call: Call, csrfToken: bool, storageWorks: bool) returns (sent: bool)
      requires Valid() && (pending.Some? ==> call.request == pending.value)
      requires pending.None? ==> item == Absent
      modifies this
      ensures View() == if csrfToken then Send(old(View()).0, old(View()).1, call, storageWorks) else old(View())
      ensures Valid() && sent == (old(inFlight).None? && csrfToken && storageWorks)
      ensures sent ==> item == Saved(call.request) && inFlight == Some(call)
      ensures !sent ==> item == old(item) && inFlight == old(inFlight) && pending == old(pending)
      ensures storageError <==> old(storageError) || (old(inFlight).None? && csrfToken && !storageWorks)
    {
      if inFlight.Some? || !csrfToken { return false; }
      inFlight := Some(call);
      if !storageWorks {
        storageError := true;
        inFlight := None;
        return false;
      }
      item := Saved(call.request);
      pending := Some(call.request);
      sent := true;
    }

    /** The request leaves the storage on a run, or when a first send got one of the eight definite refusals, and only these
        let another launch be submitted; after any other status it is still saved and pending. */
    method OnReply(reply: Reply)
      requires Valid() && inFlight.Some?
      modifies this
      ensures View() == Answered(old(View()).0, old(View()).1, old(inFlight).value, reply)
      ensures Valid() && inFlight.None? && storageError == old(storageError)
      ensures reply.Run? ==> item == Absent && pending == Some(old(inFlight).value.request)
      ensures reply.Refusal? && (old(inFlight).value.reconciling || Uncertain(reply.status)) ==>
                item == Saved(old(inFlight).value.request) && pending == Some(old(inFlight).value.request)
      ensures reply.Refusal? && !old(inFlight).value.reconciling && !Uncertain(reply.status) ==>
                item == Absent && pending.None? && (MaySubmit(View().0) <==> !storageError)
    {
      if reply.Run? {
        item := Absent;
      } else if !inFlight.value.reconciling && reply.status in DEFINITE {
        item := Absent;
        pending := None;
      }
      inFlight := None;
    }

    /** After a lost reply the same request is still saved, and the only thing that can be sent. */
    method OnBrokenConnection()
      requires Valid() && inFlight.Some?
      modifies this
      ensures View() == (old(View()).0.(inFlight := None), old(View()).1)
      ensures Valid() && inFlight.None?
      ensures item == Saved(old(inFlight).value.request) && pending == Some(old(inFlight).value.request)
      ensures !MaySubmit(View().0)
    {
      inFlight := None;
    }
  }

  // ---- The tab, the network and the server ----

  datatype Answer = Answer(request: Launch, reply: Reply)

  datatype Record = Record(id: nat, request: Launch)

  /** `strays` are calls of forms that are no longer shown; `issued` and `seen` record what was ever sent and answered. */
  datatype World = World(
    form: Form, item: Item, strays: map<nat, Call>, nextCall: nat,
    requests: map<nat, Launch>, replies: map<nat, Answer>, runs: map<Slot, Record>,
    issued: map<Slot, Launch>, seen: set<Slot>)

  /** A tab that saved nothing yet; its storage may hold a text that does not parse. */
  function Start(ownerId: Id, item: Item): World {
    World(Mounted(item, ownerId), item, map[], 0, map[], map[], map[], map[], {})
  }

  /** What the server does with a request: answer with its run, have the run and still answer an error, or refuse it. */
  datatype Treatment = Accepts | Fails(status: nat) | Refuses(status: nat)

  /** No refusal of the API: the server may have made the run. */
  predicate Uncertain(status: nat) {
    && status != 400 && status != 401 && status != 403 && status != 404
    && status != 413 && status != 415 && status != 422 && status != 429
  }

  datatype Step =
    | Submit(key: Id, path: Path, body: string, storageWorks: bool)
    | Reconcile(storageWorks: bool)
    | Deliver(call: nat, treatment: Treatment)
    | Lose(call: nat)
    | Return(call: nat)
    | Break(call: nat)
    | Reload(ownerId: Id)
    | Remount(ownerId: Id)

  predicate Underway(w: World, call: nat) {
    (w.form.inFlight.Some? && w.form.inFlight.value.id == call) || call in w.strays
  }

  predicate Can(w: World, step: Step) {
    match step
    case Submit(key, _, _, _) => MaySubmit(w.form) && Slot(w.form.ownerId, key) !in w.issued
    case Reconcile(_) => w.form.pending.Some? && w.form.inFlight.None?
    case Deliver(call, treatment) => call in w.requests && (treatment.Fails? ==> Uncertain(treatment.status))
    case Lose(call) => call in w.requests
    case Return(call) => Underway(w, call) && call in w.replies
    case Break(call) => Underway(w, call)
    case Reload(_) => true
    case Remount(_) => true
  }

  function Transmit(w: World, l: Launch, reconciling: bool, storageWorks: bool): World {
    var next := Send(w.form, w.item, Call(w.nextCall, l, reconciling), storageWorks);
    if !storageWorks then w.(form := next.0)
    else w.(form := next.0, item := next.1, nextCall := w.nextCall + 1,
            requests := w.requests[w.nextCall := l], issued := w.issued[SlotOf(l) := l])
  }

  /** A key that the server does not know makes a run, one that it knows gets its run again. */
  function Serve(w: World, l: Launch, treatment: Treatment): (map<Slot, Record>, Reply) {
    var slot := SlotOf(l);
    if treatment.Refuses? then (w.runs, Refusal(treatment.status))
    else if slot in w.runs && w.runs[slot].request != l then (w.runs, Refusal(409))
    else
      var runs := if slot in w.runs then w.runs else w.runs[slot := Record(|w.runs|, l)];
      (runs, if treatment.Fails? then Refusal(treatment.status) else Run(runs[slot].id))
  }

  function Resolve(w: World, call: nat): World
    requires Underway(w, call) && call in w.replies
  {
    var reply := w.replies[call].reply;
    var seen := if reply.Run? then w.seen + {SlotOf(w.replies[call].request)} else w.seen;
    if call in w.strays then
      w.(strays := w.strays - {call}, seen := seen, item := if Clears(w.strays[call], reply) then Absent else w.item)
    else
      var next := Answered(w.form, w.item, w.form.inFlight.value, reply);
      w.(form := next.0, item := next.1, seen := seen)
  }

  function Do(w: World, step: Step): World
    requires Can(w, step)
  {
    match step
    case Submit(key, path, body, storageWorks) => Transmit(w, Launch(w.form.ownerId, key, path, body), false, storageWorks)
    case Reconcile(storageWorks) => Transmit(w, w.form.pending.value, true, storageWorks)
    case Deliver(call, treatment) =>
      var l := w.requests[call];
      var served := Serve(w, l, treatment);
      w.(requests := w.requests - {call}, runs := served.0, replies := w.replies[call := Answer(l, served.1)])
    case Lose(call) => w.(requests := w.requests - {call})
    case Return(call) => Resolve(w, call)
    case Break(call) =>
      if call in w.strays then w.(strays := w.strays - {call}) else w.(form := w.form.(inFlight := None))
    case Reload(ownerId) => w.(form := Mounted(w.item, ownerId), strays := map[])
    case Remount(ownerId) =>
      w.(form := Mounted(w.item, ownerId),
         strays := if w.form.inFlight.Some? then w.strays[w.form.inFlight.value.id := w.form.inFlight.value] else w.strays)
  }

  // ---- What every run keeps ----

  predicate Held(w: World, slot: Slot) {
    w.item.Saved? && SlotOf(w.item.request) == slot
  }

  /** The server made no run of it and never will. */
  predicate Dead(w: World, slot: Slot) {
    slot !in w.runs && forall id :: id in w.requests ==> SlotOf(w.requests[id]) != slot
  }

  predicate Issued(w: World, l: Launch) {
    SlotOf(l) in w.issued && w.issued[SlotOf(l)] == l
  }

  predicate NetworkAgrees(w: World) {
    && (forall id :: id in w.requests ==> id < w.nextCall && id !in w.replies && Issued(w, w.requests[id]))
    && (forall id :: id in w.requests ==> SlotOf(w.requests[id]) in w.seen || Held(w, SlotOf(w.requests[id])))
    && (forall id :: id in w.replies ==> id < w.nextCall && (w.replies[id].reply.Run? ==> SlotOf(w.replies[id].request) in w.runs))
    && (forall slot :: slot in w.runs ==> slot in w.issued && w.runs[slot].request == w.issued[slot])
    && w.seen <= w.runs.Keys
  }

  predicate FormAgrees(w: World) {
    && (w.item.Saved? ==> Issued(w, w.item.request))
    && (w.item != Absent && w.form.pending.None? ==> w.form.storageError)
    && (w.form.pending.Some? ==> Issued(w, w.form.pending.value) && SavedOrSeen(w, w.form.pending.value))
  }

  predicate SavedOrSeen(w: World, l: Launch) {
    w.item == Saved(l) || (w.item == Absent && SlotOf(l) in w.seen)
  }

  /** While a call runs its request is saved; and a first send is the only one of its key. */
  predicate CallAgrees(w: World) {
    w.form.inFlight.Some? ==>
      var c := w.form.inFlight.value;
      && c.id < w.nextCall && w.item == Saved(c.request) && w.form.pending == Some(c.request)
      && (c.id in w.requests ==> w.requests[c.id] == c.request)
      && (c.id in w.replies ==> w.replies[c.id].request == c.request)
      && (!c.reconciling ==>
            && SlotOf(c.request) !in w.seen
            && (forall id :: id in w.requests && SlotOf(w.requests[id]) == SlotOf(c.request) ==> id == c.id)
            && (SlotOf(c.request) in w.runs ==>
                  c.id in w.replies && (w.replies[c.id].reply.Refusal? ==> Uncertain(w.replies[c.id].reply.status))))
  }

  /** No run is forgotten, and every key ever sent is answered, saved, or dead. */
  predicate Remembered(w: World) {
    && (forall slot :: slot in w.runs ==> slot in w.seen || Held(w, slot))
    && (forall slot :: slot in w.issued ==> slot in w.seen || Held(w, slot) || Dead(w, slot))
  }

  /** The server made a run that the client neither saw nor has saved. */
  predicate Forgotten(w: World, slot: Slot) {
    slot in w.runs && slot !in w.seen && !Held(w, slot)
  }

  /** A call that can no longer clear the storage: its request is gone, and its reply, if there is one, does not clear. */
  predicate Harmless(w: World, c: Call) {
    c.id !in w.requests && (c.id in w.replies ==> !Clears(c, w.replies[c.id].reply))
  }

  predicate StraysAgree(w: World) {
    && (forall id :: id in w.strays ==> w.strays[id].id == id < w.nextCall && Harmless(w, w.strays[id]))
    && (w.form.inFlight.Some? ==> w.form.inFlight.value.id !in w.strays)
  }

  predicate Good(w: World) {
    StraysAgree(w) && NetworkAgrees(w) && FormAgrees(w) && CallAgrees(w) && Remembered(w)
  }

  predicate MayRemount(w: World) {
    w.form.inFlight.None? || Harmless(w, w.form.inFlight.value)
  }

  /** The form is not replaced inside the page while a call runs that may still clear the storage. */
  predicate Calm(w: World, step: Step) {
    step.Remount? ==> MayRemount(w)
  }

  /** A first send of a new key, or a reconciliation of the pending one. */
  predicate Sendable(w: World, l: Launch, reconciling: bool) {
    && w.form.inFlight.None?
    && (if reconciling then w.form.pending == Some(l) else MaySubmit(w.form) && SlotOf(l) !in w.issued)
  }

  lemma SentNetwork(w: World, l: Launch, reconciling: bool)
    requires Good(w) && Sendable(w, l, reconciling)
    ensures NetworkAgrees(Transmit(w, l, reconciling, true)) && StraysAgree(Transmit(w, l, reconciling, true))
  {
  }

  lemma SentCall(w: World, l: Launch, reconciling: bool)
    requires Good(w) && Sendable(w, l, reconciling)
    ensures FormAgrees(Transmit(w, l, reconciling, true)) && CallAgrees(Transmit(w, l, reconciling, true))
  {
  }

  lemma SentRemembered(w: World, l: Launch, reconciling: bool)
    requires Good(w) && Sendable(w, l, reconciling)
    ensures Remembered(Transmit(w, l, reconciling, true))
  {
  }

  lemma SendIsGood(w: World, l: Launch, reconciling: bool, storageWorks: bool)
    requires Good(w) && Sendable(w, l, reconciling)
    ensures Good(Transmit(w, l, reconciling, storageWorks))
  {
    if storageWorks {
      SentNetwork(w, l, reconciling);
      SentCall(w, l, reconciling);
      SentRemembered(w, l, reconciling);
    }
  }

  lemma LoseIsGood(w: World, step: Step)
    requires Good(w) && Can(w, step) && step.Lose?
    ensures Good(Do(w, step))
  {
  }

  lemma DeliverIsGood(w: World, step: Step)
    requires Good(w) && Can(w, step) && step.Deliver?
    ensures Good(Do(w, step))
  {
    DeliveredNetwork(w, step);
    DeliveredStrays(w, step);
    DeliveredCall(w, step);
    DeliveredRemembered(w, step);
  }

  lemma DeliveredNetwork(w: World, step: Step)
    requires Good(w) && Can(w, step) && step.Deliver?
    ensures NetworkAgrees(Do(w, step))
  {
  }

  lemma DeliveredStrays(w: World, step: Step)
    requires Good(w) && Can(w, step) && step.Deliver?
    ensures StraysAgree(Do(w, step))
  {
  }

  lemma DeliveredCall(w: World, step: Step)
    requires Good(w) && Can(w, step) && step.Deliver?
    ensures CallAgrees(Do(w, step))
  {
  }

  lemma DeliveredRemembered(w: World, step: Step)
    requires Good(w) && Can(w, step) && step.Deliver?
    ensures Remembered(Do(w, step))
  {
  }

  lemma ReturnIsGood(w: World, call: nat)
    requires Good(w) && Can(w, Return(call))
    ensures Good(Do(w, Return(call)))
  {
    if call in w.strays {
      StrayReturnIsGood(w, call);
    } else {
      AnsweredNetwork(w, call);
      AnsweredForm(w, call);
    }
  }

  lemma StrayReturnIsGood(w: World, call: nat)
    requires Good(w) && Can(w, Return(call)) && call in w.strays
    ensures Good(Do(w, Return(call)))
  {
  }

  lemma AnsweredNetwork(w: World, call: nat)
    requires Good(w) && Can(w, Return(call)) && call !in w.strays
    ensures NetworkAgrees(Do(w, Return(call))) && StraysAgree(Do(w, Return(call)))
  {
  }

  lemma AnsweredForm(w: World, call: nat)
    requires Good(w) && Can(w, Return(call)) && call !in w.strays
    ensures var next := Do(w, Return(call)); FormAgrees(next) && CallAgrees(next) && Remembered(next)
  {
  }

  lemma BreakIsGood(w: World, call: nat)
    requires Good(w) && Can(w, Break(call))
    ensures Good(Do(w, Break(call)))
  {
    if call in w.strays {
      StrayBreakIsGood(w, call);
    } else {
      BrokenIsGood(w, call);
    }
  }

  lemma StrayBreakIsGood(w: World, call: nat)
    requires Good(w) && Can(w, Break(call)) && call in w.strays
    ensures Good(Do(w, Break(call)))
  {
  }

  lemma BrokenIsGood(w: World, call: nat)
    requires Good(w) && Can(w, Break(call)) && call !in w.strays
    ensures Good(Do(w, Break(call)))
  {
  }

  lemma StepIsGood(w: World, step: Step)
    requires Good(w) && Can(w, step) && Calm(w, step)
    ensures Good(Do(w, step))
  {
    match step {
      case Submit(key, path, body, storageWorks) => SendIsGood(w, Launch(w.form.ownerId, key, path, body), false, storageWorks);
      case Reconcile(storageWorks) => SendIsGood(w, w.form.pending.value, true, storageWorks);
      case Deliver(_, _) => DeliverIsGood(w, step);
      case Lose(_) => LoseIsGood(w, step);
      case Return(call) => ReturnIsGood(w, call);
      case Break(call) => BreakIsGood(w, call);
      case _ => ReplaceIsGood(w, step);
    }
  }

  lemma ReplaceIsGood(w: World, step: Step)
    requires Good(w) && Calm(w, step) && (step.Reload? || step.Remount?)
    ensures Good(Do(w, step))
  {
  }

  predicate CanAll(w: World, steps: seq<Step>)
    decreases |steps|
  {
    steps == [] || (Can(w, steps[0]) && CanAll(Do(w, steps[0]), steps[1..]))
  }

  predicate AllCalm(w: World, steps: seq<Step>)
    requires CanAll(w, steps)
    decreases |steps|
  {
    steps == [] || (Calm(w, steps[0]) && AllCalm(Do(w, steps[0]), steps[1..]))
  }

  function DoAll(w: World, steps: seq<Step>): World
    requires CanAll(w, steps)
    decreases |steps|
  {
    if steps == [] then w else DoAll(Do(w, steps[0]), steps[1..])
  }

  lemma {:induction false} AlwaysGood(w: World, steps: seq<Step>)
    requires Good(w) && CanAll(w, steps) && AllCalm(w, steps)
    ensures Good(DoAll(w, steps))
    decreases |steps|
  {
    if steps != [] {
      StepIsGood(w, steps[0]);
      AlwaysGood(Do(w, steps[0]), steps[1..]);
    }
  }

  /** Whatever was lost, refused, reloaded or reconciled: every run the server made was shown to the client, or its
      request is still saved; and the run is the one the client asked for. */
  lemma NoForgottenRun(ownerId: Id, item: Item, steps: seq<Step>, slot: Slot)
    requires !item.Saved? && CanAll(Start(ownerId, item), steps) && AllCalm(Start(ownerId, item), steps)
    requires slot in DoAll(Start(ownerId, item), steps).runs
    ensures var w := DoAll(Start(ownerId, item), steps);
            && !Forgotten(w, slot)
            && slot in w.issued && w.runs[slot].request == w.issued[slot]
  {
    AlwaysGood(Start(ownerId, item), steps);
  }

  /** A key leaves the storage only after its run was seen, or when there is none and never will be. */
  lemma LeavesOnlyWhenKnown(ownerId: Id, item: Item, steps: seq<Step>, step: Step, slot: Slot)
    requires !item.Saved? && CanAll(Start(ownerId, item), steps) && AllCalm(Start(ownerId, item), steps)
    requires var w := DoAll(Start(ownerId, item), steps);
             Can(w, step) && Calm(w, step) && Held(w, slot) && !Held(Do(w, step), slot)
    ensures var next := Do(DoAll(Start(ownerId, item), steps), step);
            slot in next.seen || Dead(next, slot)
  {
    AlwaysGood(Start(ownerId, item), steps);
    StepIsGood(DoAll(Start(ownerId, item), steps), step);
  }

  /** No new key is sent before the outcome of every earlier one is known. */
  lemma NewKeysWait(ownerId: Id, item: Item, steps: seq<Step>, step: Step, slot: Slot)
    requires !item.Saved? && CanAll(Start(ownerId, item), steps) && AllCalm(Start(ownerId, item), steps)
    requires var w := DoAll(Start(ownerId, item), steps); Can(w, step) && step.Submit? && slot in w.issued
    ensures var w := DoAll(Start(ownerId, item), steps); slot in w.seen || Dead(w, slot)
  {
    AlwaysGood(Start(ownerId, item), steps);
  }

  /** The server never finds a key used for another request. */
  lemma RepliesNeverConflict(ownerId: Id, item: Item, steps: seq<Step>, call: nat)
    requires !item.Saved? && CanAll(Start(ownerId, item), steps) && AllCalm(Start(ownerId, item), steps)
    requires call in DoAll(Start(ownerId, item), steps).requests
    ensures var w := DoAll(Start(ownerId, item), steps); Serve(w, w.requests[call], Accepts).1.Run?
  {
    AlwaysGood(Start(ownerId, item), steps);
  }
}
