/** The ticket scheduler: groups of blocks claim experts through one shared counter, retire through a second,
    and the last to retire clears both for the next launch. One step is one shared-memory operation of one
    group's leader, in any interleaving. */
module Tickets {

  /** Where a group is in the kernel. `at` is its position in the list of active experts. */
  datatype Pc =
    | Scan(at: nat)                   // comparing the position with its ticket
    | Claim(at: nat)                  // ran the expert at this position, has not claimed its next one
    | Publish(at: nat, claimed: nat)  // has claimed, has not stored the ticket in its group's cell
    | Load(at: nat)                   // past the group barrier, about to read the cell
    | Retire
    | ClearNext
    | ClearRetired
    | Finished

  datatype Group = Group(pc: Pc, ticket: nat, cell: nat)

  /** The shared counters, the groups, and for each active expert the groups that ran it, in order. */
  datatype Device = Device(next: nat, retired: nat, groups: seq<Group>, ran: seq<seq<nat>>)

  function GroupStep(d: Device, g: nat): (r: Device)
    requires g < |d.groups|
    ensures |r.groups| == |d.groups| && |r.ran| == |d.ran|
  {
    var me := d.groups[g];
    match me.pc
    case Scan(i) =>
      if i >= |d.ran| then d.(groups := d.groups[g := me.(pc := Retire)])
      else if i != me.ticket then d.(groups := d.groups[g := me.(pc := Scan(i + 1))])
      else d.(groups := d.groups[g := me.(pc := Claim(i))], ran := d.ran[i := d.ran[i] + [g]])
    case Claim(i) =>
      d.(groups := d.groups[g := me.(pc := Publish(i, |d.groups| + d.next))], next := d.next + 1)
    case Publish(i, t) =>
      d.(groups := d.groups[g := me.(pc := Load(i), cell := t)])
    case Load(i) =>
      d.(groups := d.groups[g := me.(pc := Scan(i + 1), ticket := me.cell)])
    case Retire =>
      d.(groups := d.groups[g := me.(pc := if d.retired == |d.groups| - 1 then ClearNext else Finished)],
         retired := d.retired + 1)
    case ClearNext =>
      d.(groups := d.groups[g := me.(pc := ClearRetired)], next := 0)
    case ClearRetired =>
      d.(groups := d.groups[g := me.(pc := Finished)], retired := 0)
    case Finished => d
  }

  ghost predicate AllFinished(d: Device) {
    forall g :: 0 <= g < |d.groups| ==> d.groups[g].pc == Finished
  }

  /** Stream order: a launch begins only when the one before it has ended. It sets up no shared word:
      counters and cells are what the last launch left. */
  function Launched(d: Device, experts: nat): (r: Device)
    ensures |r.groups| == |d.groups|
  {
    d.(groups := seq(|d.groups|, g requires 0 <= g < |d.groups| => Group(Scan(0), g, d.groups[g].cell)),
       ran := seq(experts, _ => []))
  }

  datatype Event = Step(group: nat) | Launch(experts: nat)

  ghost function Apply(d: Device, e: Event): (r: Device)
    ensures |r.groups| == |d.groups|
  {
    match e
    case Step(g) => if g < |d.groups| then GroupStep(d, g) else d
    case Launch(n) => if AllFinished(d) then Launched(d, n) else d
  }

  ghost function Run(d: Device, es: seq<Event>, n: nat): (r: Device)
    requires n <= |es|
    ensures |r.groups| == |d.groups|
  {
    if n == 0 then d else Apply(Run(d, es, n - 1), es[n - 1])
  }

  // ---------------------------------------------------------------- the invariant

  /** The ticket a group still has to run, wherever it is stored; -1 when there is none. */
  ghost function Held(x: Group): int {
    match x.pc
    case Scan(_) => x.ticket
    case Publish(_, t) => t
    case Load(_) => x.cell
    case _ => -1
  }

  ghost predicate Past(x: Group) {
    x.pc in {ClearNext, ClearRetired, Finished}
  }

  /** How many of the first `n` groups have retired. */
  ghost function Retirees(gs: seq<Group>, n: nat): (r: nat)
    requires n <= |gs|
    ensures r <= n
  {
    if n == 0 then 0 else Retirees(gs, n - 1) + if Past(gs[n - 1]) then 1 else 0
  }

  /** A held ticket lies at or after the group's position, so the one pass over the list will meet it. */
  ghost predicate GroupOk(x: Group, issued: nat, experts: nat) {
    match x.pc
    case Scan(i) => i <= experts && i <= x.ticket < issued
    case Claim(i) => i < experts && i < issued
    case Publish(i, t) => i < experts && i < t < issued
    case Load(i) => i < experts && i < x.cell < issued
    case Retire => experts < issued
    case Finished => experts < issued
    case _ => false
  }

  ghost predicate Pending(gs: seq<Group>, e: nat) {
    exists g :: 0 <= g < |gs| && Held(gs[g]) == e
  }

  ghost predicate ExpertOk(d: Device, e: nat)
    requires e < |d.ran|
  {
    if e < |d.groups| + d.next then |d.ran[e]| == 1 || (d.ran[e] == [] && Pending(d.groups, e)) else d.ran[e] == []
  }

  ghost predicate AllOk(gs: seq<Group>, issued: nat, experts: nat) {
    forall g :: 0 <= g < |gs| ==> GroupOk(gs[g], issued, experts)
  }

  ghost predicate Apart(gs: seq<Group>) {
    forall g, h :: 0 <= g < h < |gs| && Held(gs[g]) >= 0 ==> Held(gs[g]) != Held(gs[h])
  }

  /** An expert whose ticket is still held has not been run. */
  ghost predicate Untouched(gs: seq<Group>, ran: seq<seq<nat>>) {
    forall g :: 0 <= g < |gs| && 0 <= Held(gs[g]) < |ran| ==> ran[Held(gs[g])] == []
  }

  ghost predicate Experts(d: Device) {
    forall e :: 0 <= e < |d.ran| ==> ExpertOk(d, e)
  }

  /** Some group has not retired. */
  ghost predicate Running(d: Device) {
    && Retirees(d.groups, |d.groups|) == d.retired < |d.groups|
    && AllOk(d.groups, |d.groups| + d.next, |d.ran|) && Apart(d.groups) && Untouched(d.groups, d.ran) && Experts(d)
  }

  /** Every group has retired; group `last` is clearing the counters. */
  ghost predicate Closing(d: Device, last: nat) {
    && last < |d.groups|
    && (forall g :: 0 <= g < |d.groups| && g != last ==> d.groups[g].pc == Finished)
    && (forall e :: 0 <= e < |d.ran| ==> |d.ran[e]| == 1)
    && match d.groups[last].pc
       case ClearNext => true
       case ClearRetired => d.next == 0
       case Finished => d.next == 0 && d.retired == 0
       case _ => false
  }

  ghost predicate Inv(d: Device) {
    Running(d) || exists last :: Closing(d, last)
  }

  lemma {:induction false} RetireesChange(gs: seq<Group>, g: nat, x: Group, n: nat)
    requires n <= |gs| && g < |gs|
    ensures Retirees(gs[g := x], n) ==
            Retirees(gs, n) + if g < n then (if Past(x) then 1 else 0) - (if Past(gs[g]) then 1 else 0) else 0
  {
    if n > 0 { RetireesChange(gs, g, x, n - 1); }
  }

  lemma {:induction false} AllRetired(gs: seq<Group>, n: nat, g: nat)
    requires n <= |gs| && Retirees(gs, n) == n && g < n
    ensures Past(gs[g])
  {
    if g < n - 1 { AllRetired(gs, n - 1, g); }
  }

  lemma {:induction false} SomeRetired(gs: seq<Group>, n: nat) returns (g: nat)
    requires n <= |gs| && Retirees(gs, n) < n
    ensures g < n && !Past(gs[g])
  {
    if Past(gs[n - 1]) { g := SomeRetired(gs, n - 1); } else { g := n - 1; }
  }

  /** Experts other than `done` stay as they are when the groups go on holding the same of them. */
  lemma ExpertsKeep(d: Device, d': Device, done: int)
    requires Experts(d) && |d'.groups| == |d.groups| && d'.next >= d.next && |d'.ran| == |d.ran|
    requires forall e :: 0 <= e < |d.ran| && e != done ==> d'.ran[e] == d.ran[e]
    requires forall g :: 0 <= g < |d.groups| && 0 <= Held(d.groups[g]) < |d.ran| && Held(d.groups[g]) != done ==>
               Held(d'.groups[g]) == Held(d.groups[g])
    requires 0 <= done < |d.ran| ==> ExpertOk(d', done)
    requires d'.next > d.next ==> d'.next == d.next + 1 && Pending(d'.groups, |d.groups| + d.next)
    ensures Experts(d')
  {
    forall e | 0 <= e < |d.ran| && e != done
      ensures ExpertOk(d', e)
    {
      assert ExpertOk(d, e);
      if Pending(d.groups, e) {
        var h :| 0 <= h < |d.groups| && Held(d.groups[h]) == e;
        assert Held(d'.groups[h]) == e;
      }
    }
  }

  lemma ApartKeeps(gs: seq<Group>, g: nat, x: Group)
    requires Apart(gs) && g < |gs| && (Held(x) == Held(gs[g]) || Held(x) < 0)
    ensures Apart(gs[g := x])
  {
  }

  /** A step that changes only one group's record, keeping what it holds. */
  lemma KeepsHeld(d: Device, g: nat, x: Group)
    requires Running(d) && g < |d.groups| && !Past(d.groups[g]) && !Past(x)
    requires Held(x) == Held(d.groups[g]) || (Held(x) < 0 && Held(d.groups[g]) >= |d.ran|)
    requires GroupOk(x, |d.groups| + d.next, |d.ran|)
    ensures Running(d.(groups := d.groups[g := x]))
  {
    hide Held, GroupOk, Past;
    RetireesChange(d.groups, g, x, |d.groups|);
    ApartKeeps(d.groups, g, x);
    ExpertsKeep(d, d.(groups := d.groups[g := x]), -1);
  }

  lemma RunsExpert(d: Device, g: nat)
    requires Running(d) && g < |d.groups| && d.groups[g].pc.Scan? && d.groups[g].pc.at == d.groups[g].ticket < |d.ran|
    ensures Running(GroupStep(d, g))
  {
    var x := d.groups[g].(pc := Claim(d.groups[g].ticket));
    var i := d.groups[g].ticket;
    var d' := d.(groups := d.groups[g := x], ran := d.ran[i := d.ran[i] + [g]]);
    assert d' == GroupStep(d, g);
    assert GroupOk(d.groups[g], |d.groups| + d.next, |d.ran|);
    assert Held(d.groups[g]) == i && Held(x) < 0 && !Past(x) && !Past(d.groups[g])
           && GroupOk(x, |d.groups| + d.next, |d.ran|);
    assert d.ran[i] == [] && d'.ran[i] == [g] && i < |d.groups| + d.next;
    assert ExpertOk(d', i);
    hide Held, GroupOk, Past, GroupStep;
    RetireesChange(d.groups, g, x, |d.groups|);
    ApartKeeps(d.groups, g, x);
    OnlyHolder(d.groups, g);
    ExpertsKeep(d, d', i);
  }

  lemma OnlyHolder(gs: seq<Group>, g: nat)
    requires Apart(gs) && g < |gs| && Held(gs[g]) >= 0
    ensures forall h :: 0 <= h < |gs| && h != g ==> Held(gs[h]) != Held(gs[g])
  {
  }

  lemma Claims(d: Device, g: nat)
    requires Running(d) && g < |d.groups| && d.groups[g].pc.Claim?
    ensures Running(GroupStep(d, g))
  {
    var issued := |d.groups| + d.next;
    var x := d.groups[g].(pc := Publish(d.groups[g].pc.at, issued));
    var d' := d.(groups := d.groups[g := x], next := d.next + 1);
    RetireesChange(d.groups, g, x, |d.groups|);
    assert GroupOk(d.groups[g], issued, |d.ran|);
    assert d' == GroupStep(d, g) && Held(d.groups[g]) < 0 && Held(d'.groups[g]) == issued;
    OneMoreIssued(d.groups, g, x, issued, |d.ran|);
    assert issued < |d.ran| ==> ExpertOk(d, issued) && d.ran[issued] == [];
    NewTicket(d.groups, g, x, issued, d.ran);
    assert !Past(x) && !Past(d.groups[g]);
    hide Held, GroupOk, Past, GroupStep;
    assert issued < |d.ran| ==> ExpertOk(d, issued);
    ExpertsKeep(d, d', -1);
  }

  lemma OneMoreIssued(gs: seq<Group>, g: nat, x: Group, issued: nat, experts: nat)
    requires AllOk(gs, issued, experts) && g < |gs| && GroupOk(x, issued + 1, experts)
    ensures AllOk(gs[g := x], issued + 1, experts)
    ensures forall h :: 0 <= h < |gs| ==> Held(gs[h]) < issued
  {
    forall h | 0 <= h < |gs|
      ensures GroupOk(gs[h], issued + 1, experts) && Held(gs[h]) < issued
    {
      assert GroupOk(gs[h], issued, experts);
    }
  }

  lemma NewTicket(gs: seq<Group>, g: nat, x: Group, issued: nat, ran: seq<seq<nat>>)
    requires g < |gs| && Held(x) == issued && Apart(gs) && Untouched(gs, ran)
    requires forall h :: 0 <= h < |gs| ==> Held(gs[h]) < issued
    requires issued < |ran| ==> ran[issued] == []
    ensures Apart(gs[g := x]) && Untouched(gs[g := x], ran)
  {
  }

  lemma RetiresNotLast(d: Device, g: nat)
    requires Running(d) && g < |d.groups| && d.groups[g].pc.Retire? && d.retired != |d.groups| - 1
    ensures Running(GroupStep(d, g))
  {
    var d' := GroupStep(d, g);
    RetireesChange(d.groups, g, d'.groups[g], |d.groups|);
    assert GroupOk(d.groups[g], |d.groups| + d.next, |d.ran|);
    ApartKeeps(d.groups, g, d'.groups[g]);
    ExpertsKeep(d, d', -1);
  }

  /** The last group retires only when every issued ticket below the expert count has been run, and
      some group scanned past the end, so every expert had been issued. */
  lemma RetiresLast(d: Device, g: nat)
    requires Running(d) && g < |d.groups| && d.groups[g].pc.Retire? && d.retired == |d.groups| - 1
    ensures Closing(GroupStep(d, g), g)
  {
    var d' := GroupStep(d, g);
    RetireesChange(d.groups, g, d'.groups[g], |d.groups|);
    forall h | 0 <= h < |d.groups|
      ensures Held(d.groups[h]) < 0 && (h != g ==> d'.groups[h].pc == Finished)
    {
      AllRetired(d'.groups, |d.groups|, h);
      assert GroupOk(d.groups[h], |d.groups| + d.next, |d.ran|);
    }
    forall e | 0 <= e < |d.ran|
      ensures |d.ran[e]| == 1
    {
      assert ExpertOk(d, e);
    }
  }

  lemma StepKeeps(d: Device, g: nat)
    requires Inv(d) && g < |d.groups|
    ensures Inv(GroupStep(d, g))
  {
    var d' := GroupStep(d, g);
    if Running(d) {
      assert GroupOk(d.groups[g], |d.groups| + d.next, |d.ran|);
      match d.groups[g].pc
      case Scan(i) =>
        if i < |d.ran| && i == d.groups[g].ticket { RunsExpert(d, g); } else { KeepsHeld(d, g, d'.groups[g]); }
      case Claim(_) => Claims(d, g);
      case Publish(_, _) => KeepsHeld(d, g, d'.groups[g]);
      case Load(_) => KeepsHeld(d, g, d'.groups[g]);
      case Retire => if d.retired == |d.groups| - 1 { RetiresLast(d, g); } else { RetiresNotLast(d, g); }
      case Finished =>
    } else {
      var last :| Closing(d, last);
      assert Closing(d', last);
    }
  }

  lemma LaunchKeeps(d: Device, experts: nat)
    requires Inv(d) && AllFinished(d)
    ensures Inv(Launched(d, experts))
  {
    Restored(d);
    if |d.groups| > 0 {
      var d' := Launched(d, experts);
      NoneRetired(d'.groups, |d.groups|);
      forall e | 0 <= e < experts
        ensures ExpertOk(d', e)
      {
        if e < |d.groups| { assert Held(d'.groups[e]) == e; }
      }
    }
  }

  lemma {:induction false} NoneRetired(gs: seq<Group>, n: nat)
    requires n <= |gs| && forall g :: 0 <= g < n ==> !Past(gs[g])
    ensures Retirees(gs, n) == 0
  {
    if n > 0 { NoneRetired(gs, n - 1); }
  }

  /** The end of a launch: every expert ran exactly once, on one group, and both counters are back at zero. */
  lemma Restored(d: Device)
    requires Inv(d) && AllFinished(d)
    ensures d.next == 0 && d.retired == 0
    ensures forall e :: 0 <= e < |d.ran| ==> |d.ran[e]| == 1
  {
    if Running(d) {
      var g := SomeRetired(d.groups, |d.groups|);
    }
  }

  lemma {:induction false} AlwaysInv(d: Device, es: seq<Event>, n: nat)
    requires Inv(d) && n <= |es|
    ensures Inv(Run(d, es, n))
  {
    if n > 0 {
      AlwaysInv(d, es, n - 1);
      var before := Run(d, es, n - 1);
      match es[n - 1]
      case Step(g) => if g < |d.groups| { StepKeeps(before, g); }
      case Launch(k) => if AllFinished(before) { LaunchKeeps(before, k); }
    }
  }

  /** The workspace before its first launch, zeroed by its owner. */
  ghost predicate Idle(d: Device) {
    d.groups != [] && AllFinished(d) && d.next == 0 && d.retired == 0 && d.ran == []
  }

  // ---------------------------------------------------------------- what every run gives

  /** At every moment of every run of any number of launches: no expert is run twice, and no two groups
      are on the same ticket. */
  lemma NeverTwice(d: Device, es: seq<Event>, n: nat)
    requires Idle(d) && n <= |es|
    ensures var r := Run(d, es, n);
            && (forall e :: 0 <= e < |r.ran| ==> |r.ran[e]| <= 1)
            && (forall g, h :: 0 <= g < h < |r.groups| && Held(r.groups[g]) >= 0 ==>
                  Held(r.groups[g]) != Held(r.groups[h]))
  {
    assert Closing(d, 0);
    AlwaysInv(d, es, n);
    var r := Run(d, es, n);
    if Running(r) {
      forall e | 0 <= e < |r.ran|
        ensures |r.ran[e]| <= 1
      {
        assert ExpertOk(r, e);
      }
    }
  }

  /** Whenever all groups of a launch have finished, every active expert was run by exactly one group,
      and the next launch finds both counters at zero. */
  lemma EveryExpertOnce(d: Device, es: seq<Event>, n: nat)
    requires Idle(d) && n <= |es| && AllFinished(Run(d, es, n))
    ensures var r := Run(d, es, n);
            r.next == 0 && r.retired == 0 && forall e :: 0 <= e < |r.ran| ==> |r.ran[e]| == 1
  {
    assert Closing(d, 0);
    AlwaysInv(d, es, n);
    Restored(Run(d, es, n));
  }

  /** A step lowers a counter only when every group has retired. */
  lemma ResetsAfterAll(d: Device, es: seq<Event>, n: nat, g: nat, h: nat)
    requires Idle(d) && n <= |es| && g < |d.groups| && h < |d.groups|
    requires var r := Run(d, es, n); GroupStep(r, g).next < r.next || GroupStep(r, g).retired < r.retired
    ensures var r := Run(d, es, n); h < |r.groups| && Past(r.groups[h])
  {
    assert Closing(d, 0);
    AlwaysInv(d, es, n);
    LowersOnlyAtEnd(Run(d, es, n), g, h);
  }

  lemma LowersOnlyAtEnd(r: Device, g: nat, h: nat)
    requires Inv(r) && g < |r.groups| && h < |r.groups|
    requires GroupStep(r, g).next < r.next || GroupStep(r, g).retired < r.retired
    ensures Past(r.groups[h])
  {
    assert r.groups[g].pc in {ClearNext, ClearRetired};
    assert !Running(r) by { assert !GroupOk(r.groups[g], |r.groups| + r.next, |r.ran|); }
  }

  // ---------------------------------------------------------------- every fair schedule ends

  /** An upper bound on the steps a group still needs. */
  ghost function Remaining(x: Group, experts: nat): int {
    match x.pc
    case Scan(i) => 5 * (experts - i) + 4
    case Claim(i) => 5 * (experts - i) + 3
    case Publish(i, _) => 5 * (experts - i) + 2
    case Load(i) => 5 * (experts - i) + 1
    case Retire => 3
    case ClearNext => 2
    case ClearRetired => 1
    case Finished => 0
  }

  /** How often group `g` is scheduled. */
  ghost function Turns(es: seq<Event>, g: nat, n: nat): nat
    requires n <= |es|
  {
    if n == 0 then 0 else Turns(es, g, n - 1) + if es[n - 1] == Step(g) then 1 else 0
  }

  lemma RemainingIsNat(d: Device, g: nat)
    requires Inv(d) && g < |d.groups|
    ensures Remaining(d.groups[g], |d.ran|) >= 0
    ensures Remaining(d.groups[g], |d.ran|) == 0 <==> d.groups[g].pc == Finished
  {
    if Running(d) { assert GroupOk(d.groups[g], |d.groups| + d.next, |d.ran|); }
  }

  lemma StepProgress(d: Device, g: nat, h: nat)
    requires Inv(d) && g < |d.groups| && h < |d.groups|
    ensures var now, later := Remaining(d.groups[h], |d.ran|), Remaining(GroupStep(d, g).groups[h], |d.ran|);
            later <= if g == h && now > 0 then now - 1 else now
  {
    if g == h { RemainingIsNat(d, g); }
  }

  /** No group ever waits for another: in any schedule of the launch, each of its own turns brings a group
      closer to its end, and nobody else's turn sets it back. */
  lemma {:induction false} FairScheduleFinishes(d: Device, es: seq<Event>, n: nat, g: nat)
    requires Inv(d) && n <= |es| && g < |d.groups|
    requires forall k :: 0 <= k < |es| ==> es[k].Step?
    ensures var r := Run(d, es, n);
            && |r.ran| == |d.ran|
            && (r.groups[g].pc == Finished
                || Remaining(r.groups[g], |d.ran|) + Turns(es, g, n) <= Remaining(d.groups[g], |d.ran|))
  {
    hide GroupStep, Inv, Remaining;
    AlwaysInv(d, es, n);
    RemainingIsNat(Run(d, es, n), g);
    if n > 0 {
      FairScheduleFinishes(d, es, n - 1, g);
      AlwaysInv(d, es, n - 1);
      RemainingIsNat(Run(d, es, n - 1), g);
      var e := es[n - 1];
      assert e.Step?;
      if e.group < |d.groups| { StepProgress(Run(d, es, n - 1), e.group, g); }
    }
  }

  /** So any launch, the first or a later one, whose groups each get that many turns ends with every expert run once. */
  lemma LaunchCompletes(d: Device, experts: nat, es: seq<Event>)
    requires Inv(d) && AllFinished(d) && d.groups != [] && forall k :: 0 <= k < |es| ==> es[k].Step?
    requires forall g :: 0 <= g < |d.groups| ==> Turns(es, g, |es|) >= 5 * experts + 4
    ensures var r := Run(Launched(d, experts), es, |es|);
            && AllFinished(r) && |r.ran| == experts && r.next == 0 && r.retired == 0
            && forall e :: 0 <= e < experts ==> |r.ran[e]| == 1
  {
    LaunchKeeps(d, experts);
    var start := Launched(d, experts);
    AlwaysInv(start, es, |es|);
    forall g | 0 <= g < |d.groups|
      ensures Run(start, es, |es|).groups[g].pc == Finished && |Run(start, es, |es|).ran| == experts
    {
      FairScheduleFinishes(start, es, |es|, g);
      RemainingIsNat(Run(start, es, |es|), g);
      assert start.groups[g].pc == Scan(0);
    }
    Restored(Run(start, es, |es|));
    assert |Run(start, es, |es|).ran| == experts by { FairScheduleFinishes(start, es, |es|, 0); }
  }

  /** After any number of launches, in any interleaving, the next one completes in the same way. */
  lemma EveryLaunchCompletes(d: Device, before: seq<Event>, n: nat, experts: nat, es: seq<Event>)
    requires Idle(d) && n <= |before| && AllFinished(Run(d, before, n)) && forall k :: 0 <= k < |es| ==> es[k].Step?
    requires forall g :: 0 <= g < |d.groups| ==> Turns(es, g, |es|) >= 5 * experts + 4
    ensures var r := Run(Launched(Run(d, before, n), experts), es, |es|);
            && AllFinished(r) && |r.ran| == experts && r.next == 0 && r.retired == 0
            && forall e :: 0 <= e < experts ==> |r.ran[e]| == 1
  {
    assert Closing(d, 0);
    AlwaysInv(d, before, n);
    LaunchCompletes(Run(d, before, n), experts, es);
  }
}
