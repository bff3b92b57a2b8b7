/** What happens when the form is replaced inside the page while a call of it still runs: exactly when a launch can be
    lost for good. */
module LaunchReplacement {
  import opened RunLog
  import opened LaunchProtocol

  // ---- Lost for good ----

  /** Whatever is on the network was issued, under a number that is used up. */
  predicate Numbered(w: World) {
    && (forall id :: id in w.requests ==> id < w.nextCall && SlotOf(w.requests[id]) in w.issued)
    && (forall id :: id in w.replies ==> id < w.nextCall)
    && w.runs.Keys <= w.issued.Keys
  }

  /** Forgotten, and no form and no running call knows of it any more. */
  predicate Lost(w: World, slot: Slot) {
    && Numbered(w) && Forgotten(w, slot)
    && (w.form.pending.Some? ==> SlotOf(w.form.pending.value) != slot)
    && (forall id :: id in w.requests && SlotOf(w.requests[id]) == slot ==> !Underway(w, id))
    && (forall id :: id in w.replies && SlotOf(w.replies[id].request) == slot ==> !Underway(w, id))
  }

  lemma LostStays(w: World, slot: Slot, step: Step)
    requires Lost(w, slot) && Can(w, step)
    ensures Lost(Do(w, step), slot)
  {
    match step {
      case Submit(_, _, _, _) => SendLeavesLost(w, slot, step);
      case Reconcile(_) => SendLeavesLost(w, slot, step);
      case Return(call) => ReturnLeavesLost(w, slot, call);
      case _ => RestLeavesLost(w, slot, step);
    }
  }

  lemma SendLeavesLost(w: World, slot: Slot, step: Step)
    requires Lost(w, slot) && Can(w, step) && (step.Submit? || step.Reconcile?)
    ensures Lost(Do(w, step), slot)
  {
  }

  lemma ReturnLeavesLost(w: World, slot: Slot, call: nat)
    requires Lost(w, slot) && Can(w, Return(call))
    ensures Lost(Do(w, Return(call)), slot)
  {
  }

  lemma RestLeavesLost(w: World, slot: Slot, step: Step)
    requires Lost(w, slot) && Can(w, step) && !step.Submit? && !step.Reconcile? && !step.Return?
    ensures Lost(Do(w, step), slot)
  {
  }

  /** Whatever happens afterwards, calm or not, the client never sees that run and never has it saved again. */
  lemma {:induction false} LostForGood(w: World, slot: Slot, steps: seq<Step>)
    requires Lost(w, slot) && CanAll(w, steps)
    ensures Lost(DoAll(w, steps), slot)
    decreases |steps|
  {
    if steps != [] {
      LostStays(w, slot, steps[0]);
      LostForGood(Do(w, steps[0]), slot, steps[1..]);
    }
  }

  /** A reload makes a forgotten run lost. */
  lemma ReloadLoses(w: World, slot: Slot, ownerId: Id)
    requires Numbered(w) && Forgotten(w, slot)
    ensures Lost(Do(w, Reload(ownerId)), slot)
  {
  }

  // ---- Putting runs together ----

  lemma Prepend(w: World, step: Step, rest: seq<Step>)
    requires Can(w, step) && CanAll(Do(w, step), rest)
    ensures CanAll(w, [step] + rest) && DoAll(w, [step] + rest) == DoAll(Do(w, step), rest)
    ensures Calm(w, step) && AllCalm(Do(w, step), rest) ==> AllCalm(w, [step] + rest)
  {
    assert ([step] + rest)[1..] == rest;
  }

  lemma {:induction false} DoAllAppend(w: World, some: seq<Step>, more: seq<Step>)
    requires CanAll(w, some) && CanAll(DoAll(w, some), more)
    ensures CanAll(w, some + more) && DoAll(w, some + more) == DoAll(DoAll(w, some), more)
    ensures AllCalm(w, some) && AllCalm(DoAll(w, some), more) ==> AllCalm(w, some + more)
    decreases |some|
  {
    if some == [] {
      assert some + more == more;
    } else {
      assert (some + more)[1..] == some[1..] + more;
      DoAllAppend(Do(w, some[0]), some[1..], more);
    }
  }

  /** A run that begins by replacing the form, is calm from then on, and ends with a launch that is lost. */
  ghost predicate Loses(w: World, steps: seq<Step>, slot: Slot) {
    && steps != [] && steps[0].Remount? && CanAll(w, steps)
    && AllCalm(Do(w, steps[0]), steps[1..]) && Lost(DoAll(w, steps), slot)
  }

  // ---- A stray call wipes what the new form reconciles ----

  /** What a call still has coming: an answer to its own request, or one that clears. */
  predicate Threatens(w: World, c: Call) {
    && (c.id in w.requests ==> w.requests[c.id] == c.request)
    && (c.id in w.replies ==> w.replies[c.id].request == c.request && c.id !in w.requests)
    && !Harmless(w, c)
  }

  /** A first send of a form that is no longer shown, and a reconciliation of it by the one that is. */
  predicate Contested(w: World, c: Call, again: nat) {
    && Numbered(w) && c.id in w.strays && w.strays[c.id] == c && !c.reconciling
    && c.id < w.nextCall && again in w.requests && again != c.id && again !in w.replies
    && w.requests[again] == c.request && Threatens(w, c) && (c.id in w.replies ==> w.replies[c.id].reply.Refusal?)
    && SlotOf(c.request) !in w.runs && SlotOf(c.request) !in w.seen
  }

  lemma RefusedWhileContested(w: World, c: Call) returns (steps: seq<Step>)
    requires Numbered(w) && c.id in w.strays && w.strays[c.id] == c && !c.reconciling && Threatens(w, c)
    requires c.id in w.replies ==> w.replies[c.id].reply.Refusal?
    requires SlotOf(c.request) in w.runs && SlotOf(c.request) !in w.seen
    ensures CanAll(w, steps) && AllCalm(w, steps) && Numbered(DoAll(w, steps)) && Forgotten(DoAll(w, steps), SlotOf(c.request))
  {
    var refuse, late := Deliver(c.id, Refuses(429)), Return(c.id);
    if c.id in w.requests {
      var w1 := Do(w, refuse);
      Prepend(w1, late, []);
      Prepend(w, refuse, [late]);
      steps := [refuse] + [late];
    } else {
      Prepend(w, late, []);
      steps := [late] + [];
    }
  }

  lemma ContestedForgets(w: World, c: Call, again: nat) returns (steps: seq<Step>)
    requires Contested(w, c, again)
    ensures CanAll(w, steps) && AllCalm(w, steps) && Lost(DoAll(w, steps), SlotOf(c.request))
  {
    var serve, reload := Deliver(again, Accepts), Reload(c.request.ownerId);
    var w1 := Do(w, serve);
    var some := RefusedWhileContested(w1, c);
    var w2 := DoAll(w1, some);
    ReloadLoses(w2, SlotOf(c.request), c.request.ownerId);
    Prepend(w2, reload, []);
    DoAllAppend(w1, some, [reload] + []);
    Prepend(w, serve, some + ([reload] + []));
    steps := [serve] + (some + ([reload] + []));
  }

  /** A first send whose form is replaced before it was answered, or while its definite refusal is under way: the refusal
      wipes what the new form is reconciling, and the run that this makes is lost. */
  lemma ReplacedFirstSendForgets(w: World) returns (steps: seq<Step>)
    requires Good(w) && w.form.inFlight.Some? && !w.form.inFlight.value.reconciling
    requires var c := w.form.inFlight.value;
             !Harmless(w, c) && (c.id in w.replies ==> w.replies[c.id].reply.Refusal?)
    ensures Loses(w, steps, SlotOf(w.form.inFlight.value.request))
  {
    var c := w.form.inFlight.value;
    var mount, again := Remount(c.request.ownerId), Reconcile(true);
    var w1 := Do(w, mount);
    var w2 := Do(w1, again);
    var rest := ContestedForgets(w2, c, w.nextCall);
    Prepend(w1, again, rest);
    Prepend(w, mount, [again] + rest);
    steps := [mount] + ([again] + rest);
    assert steps[1..] == [again] + rest;
  }

  // ---- A stray call wipes the next launch ----

  /** A stray call, in a page whose form has just recovered its request. */
  predicate Stray(w: World, c: Call) {
    && Numbered(w) && c.id in w.strays && w.strays[c.id] == c && c.id < w.nextCall && Threatens(w, c)
    && (forall id :: id in w.strays ==> id < w.nextCall)
    && w.item == Saved(c.request) && w.form == Mounted(w.item, c.request.ownerId)
    && SlotOf(c.request) in w.issued && w.issued[SlotOf(c.request)] == c.request
    && (SlotOf(c.request) in w.runs ==> w.runs[SlotOf(c.request)].request == c.request)
  }

  /** The same call, once its request was answered to the new form and has left the storage. */
  predicate LeftBehind(w: World, c: Call) {
    && Numbered(w) && c.id in w.strays && w.strays[c.id] == c && c.id < w.nextCall && Threatens(w, c)
    && SlotOf(c.request) in w.runs && w.runs[SlotOf(c.request)].request == c.request
    && w.item == Absent && w.form == Mounted(Absent, c.request.ownerId)
  }

  lemma StrayIsLeftBehind(w: World, c: Call) returns (steps: seq<Step>)
    requires Stray(w, c)
    ensures CanAll(w, steps) && AllCalm(w, steps)
    ensures var m := DoAll(w, steps);
            LeftBehind(m, c) && m.issued == w.issued && m.seen <= w.seen + {SlotOf(c.request)}
  {
    var again, serve := Reconcile(true), Deliver(w.nextCall, Accepts);
    var answer, mount := Return(w.nextCall), Remount(c.request.ownerId);
    var w1 := Do(w, again);
    StrayReconciles(w, c);
    ServedIsAnswered(w1, c, w.nextCall);
    var w2 := Do(w1, serve);
    AnsweredIsLeftBehind(w2, c, w.nextCall);
    var w3 := Do(w2, answer);
    Prepend(w3, mount, []);
    Prepend(w2, answer, [mount]);
    Prepend(w1, serve, [answer] + [mount]);
    steps := [again] + ([serve] + ([answer] + [mount]));
    Prepend(w, again, steps[1..]);
  }

  lemma StrayReconciles(w: World, c: Call)
    requires Stray(w, c)
    ensures Can(w, Reconcile(true))
    ensures var m := Do(w, Reconcile(true));
            && Reconciled(m, c, w.nextCall) && w.nextCall in m.requests && m.requests[w.nextCall] == c.request
            && w.nextCall != c.id && m.issued == w.issued && m.seen == w.seen
            && (SlotOf(c.request) in m.runs ==> m.runs[SlotOf(c.request)].request == c.request)
  {
  }

  /** A reconciliation by the form that is shown, beside a stray call. */
  predicate Reconciled(w: World, c: Call, again: nat) {
    && Numbered(w) && c.id in w.strays && w.strays[c.id] == c && c.id < w.nextCall && Threatens(w, c)
    && again !in w.strays && w.form.inFlight == Some(Call(again, c.request, true)) && w.form.ownerId == c.request.ownerId
  }

  predicate ServedWith(w: World, c: Call, again: nat) {
    && again in w.replies && w.replies[again].request == c.request && w.replies[again].reply.Run?
    && SlotOf(c.request) in w.runs && w.runs[SlotOf(c.request)].request == c.request
  }

  lemma ServedIsAnswered(w: World, c: Call, again: nat)
    requires Reconciled(w, c, again) && again in w.requests && w.requests[again] == c.request && again != c.id
    requires SlotOf(c.request) in w.runs ==> w.runs[SlotOf(c.request)].request == c.request
    ensures var m := Do(w, Deliver(again, Accepts));
            Reconciled(m, c, again) && ServedWith(m, c, again) && m.issued == w.issued && m.seen == w.seen
  {
  }

  lemma AnsweredIsLeftBehind(w: World, c: Call, again: nat)
    requires Reconciled(w, c, again) && ServedWith(w, c, again)
    ensures Can(w, Return(again))
    ensures var m := Do(w, Return(again));
            && Can(m, Remount(c.request.ownerId)) && Calm(m, Remount(c.request.ownerId))
            && LeftBehind(Do(m, Remount(c.request.ownerId)), c)
            && m.issued == w.issued && m.seen == w.seen + {SlotOf(c.request)}
  {
  }

  /** The late answer to a stray call clears the storage whatever it holds. */
  lemma LateAnswerClears(w: World, c: Call, slot: Slot) returns (steps: seq<Step>)
    requires Numbered(w) && c.id in w.strays && w.strays[c.id] == c && Threatens(w, c)
    requires SlotOf(c.request) in w.runs && w.runs[SlotOf(c.request)].request == c.request
    requires slot in w.runs && slot !in w.seen && slot != SlotOf(c.request)
    ensures CanAll(w, steps) && AllCalm(w, steps) && Numbered(DoAll(w, steps)) && Forgotten(DoAll(w, steps), slot)
  {
    var repeat, late := Deliver(c.id, Accepts), Return(c.id);
    if c.id in w.requests {
      var w1 := Do(w, repeat);
      Prepend(w1, late, []);
      Prepend(w, repeat, [late]);
      steps := [repeat] + [late];
    } else {
      Prepend(w, late, []);
      steps := [late] + [];
    }
  }

  lemma LeftBehindForgets(w: World, c: Call, key: Id) returns (steps: seq<Step>)
    requires LeftBehind(w, c)
    requires var slot := Slot(c.request.ownerId, key); slot !in w.issued && slot !in w.seen && slot != SlotOf(c.request)
    ensures CanAll(w, steps) && AllCalm(w, steps) && Lost(DoAll(w, steps), Slot(c.request.ownerId, key))
  {
    var slot := Slot(c.request.ownerId, key);
    var launch, create, reload := Submit(key, Website, "", true), Deliver(w.nextCall, Accepts), Reload(c.request.ownerId);
    var w1 := Do(w, launch);
    var w2 := Do(w1, create);
    var some := LateAnswerClears(w2, c, slot);
    var w3 := DoAll(w2, some);
    ReloadLoses(w3, slot, c.request.ownerId);
    Prepend(w3, reload, []);
    DoAllAppend(w2, some, [reload] + []);
    var rest := some + ([reload] + []);
    Prepend(w1, create, rest);
    Prepend(w, launch, [create] + rest);
    steps := [launch] + ([create] + rest);
  }

  /** Any call that may still clear: replace its form, and its late answer wipes the next launch for good. */
  lemma ReplacedCallForgets(w: World, key: Id) returns (steps: seq<Step>)
    requires Good(w) && !MayRemount(w)
    requires Slot(w.form.inFlight.value.request.ownerId, key) !in w.issued
    ensures Loses(w, steps, Slot(w.form.inFlight.value.request.ownerId, key))
  {
    var c := w.form.inFlight.value;
    var mount := Remount(c.request.ownerId);
    var w1 := Do(w, mount);
    var some := StrayIsLeftBehind(w1, c);
    var more := LeftBehindForgets(DoAll(w1, some), c, key);
    DoAllAppend(w1, some, more);
    Prepend(w, mount, some + more);
    steps := [mount] + (some + more);
    assert steps[1..] == some + more;
  }

  // ---- Exactly when ----

  /** There is always another key. */
  lemma {:induction false} FreshKey(slots: set<Slot>) returns (key: Id)
    ensures forall slot :: slot in slots ==> |slot.key| < |key|
    decreases |slots|
  {
    if slots == {} {
      key := "k";
    } else {
      var some :| some in slots;
      var rest := FreshKey(slots - {some});
      key := if |rest| > |some.key| then rest else some.key + "k";
      forall slot | slot in slots ensures |slot.key| < |key| {
        assert slot == some || slot in slots - {some};
      }
    }
  }

  /** In every state of every calm history: replacing the form can lose a launch for good, by steps that are calm from
      then on, exactly when a call runs that may still clear the storage. */
  lemma ReplacementLosesExactly(ownerId: Id, item: Item, history: seq<Step>)
    requires !item.Saved? && CanAll(Start(ownerId, item), history) && AllCalm(Start(ownerId, item), history)
    ensures var w := DoAll(Start(ownerId, item), history);
            (exists steps, slot :: Loses(w, steps, slot)) <==> !MayRemount(w)
  {
    AlwaysGood(Start(ownerId, item), history);
    var w := DoAll(Start(ownerId, item), history);
    if !MayRemount(w) {
      var key := FreshKey(w.issued.Keys);
      var steps := ReplacedCallForgets(w, key);
    }
    if MayRemount(w) {
      forall steps, slot ensures !Loses(w, steps, slot) {
        CalmNeverLoses(w, steps, slot);
      }
    }
  }

  lemma CalmNeverLoses(w: World, steps: seq<Step>, slot: Slot)
    requires Good(w) && MayRemount(w)
    ensures !Loses(w, steps, slot)
  {
    if steps != [] && steps[0].Remount? && CanAll(w, steps) && AllCalm(Do(w, steps[0]), steps[1..]) {
      AlwaysGood(w, steps);
    }
  }
}
