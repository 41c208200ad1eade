/** The two VM lists that viewers are sent, kept by bulk rounds and single updates whose
    reports arrive in any order (VirtualMachinesList in CollabVmServer.hpp). */
module VmInfo {
  import opened Wrappers

  /** A list entry; a list that is reset starts with blank ones. */
  datatype Slot<D> = Blank | Info(id: nat, data: D)

  /** One VM: its flag, what it reported in the open bulk round, and, for the record, what
      it reported last. */
  datatype Vm<D> = Vm(
    hasInfo: bool,
    pendingAdmin: Option<D>,
    pendingInfo: Option<D>,
    admin: D,
    info: Option<D>)

  /** `awaiting` are the VMs whose report to the open round is still to come; `orphans`
      counts the reports to come of VMs that were removed meanwhile. */
  datatype State<D> = State(
    vms: map<nat, Vm<D>>,
    requests: nat,
    updates: nat,
    awaiting: set<nat>,
    orphans: nat,
    adminList: seq<Slot<D>>,
    infoList: seq<Slot<D>>,
    outOfBounds: bool,
    published: nat)

  datatype Event<D> =
    | BeginRound
    | BulkReport(id: nat, admin: D, info: Option<D>, order: seq<nat>)
    | OrphanReport(hasInfo: bool, order: seq<nat>)
    | SingleReport(id: nat, admin: D, info: Option<D>)
    | AddVm(id: nat, admin: D)
    | RemoveVm(id: nat)

  function Init<D>(): State<D> {
    State(map[], 0, 0, {}, 0, [], [], false, 0)
  }

  // --------------------------------------------------------------------- lists

  predicate Matches<D>(s: Slot<D>, id: nat) {
    s.Info? && s.id == id
  }

  function UpdateElement<D>(l: seq<Slot<D>>, id: nat, data: D): seq<Slot<D>> {
    seq(|l|, i requires 0 <= i < |l| => if Matches(l[i], id) then Info(id, data) else l[i])
  }

  /** `remove_copy_if`. */
  function Without<D>(l: seq<Slot<D>>, id: nat): seq<Slot<D>> {
    if l == [] then []
    else (if Matches(l[0], id) then [] else [l[0]]) + Without(l[1..], id)
  }

  /** A list of the given size filled from the front. */
  function Filled<D>(size: nat, entries: seq<Slot<D>>): seq<Slot<D>> {
    if |entries| <= size then entries + seq(size - |entries|, _ => Blank) else entries[..size]
  }

  // --------------------------------------------------------------------- steps

  /** What the VMs hold for the admin list, and for the public list. */
  function AdminPending<D>(vms: map<nat, Vm<D>>): map<nat, D> {
    map id | id in vms && vms[id].pendingAdmin.Some? :: vms[id].pendingAdmin.value
  }

  function InfoPending<D>(vms: map<nat, Vm<D>>): map<nat, D> {
    map id | id in vms && vms[id].pendingAdmin.Some? && vms[id].pendingInfo.Some? :: vms[id].pendingInfo.value
  }

  /** The VMs with an entry for the public list. */
  function InfoIds<D>(vms: map<nat, Vm<D>>): set<nat> {
    set id | id in vms && vms[id].pendingAdmin.Some? && vms[id].pendingInfo.Some?
  }

  /** The entries that the publishing loop collects on its way through the table. */
  function Entries<D>(order: seq<nat>, pending: map<nat, D>): seq<Slot<D>> {
    if order == [] then []
    else (if order[0] in pending then [Info(order[0], pending[order[0]])] else [])
         + Entries(order[1..], pending)
  }

  function Freed<D>(vm: Vm<D>): Vm<D> {
    if vm.pendingAdmin.Some? then vm.(pendingAdmin := None, pendingInfo := None) else vm
  }

  function FreedAll<D>(vms: map<nat, Vm<D>>): map<nat, Vm<D>> {
    map id | id in vms :: Freed(vms[id])
  }

  /** The order in which the hash table visits the VMs. */
  ghost predicate IsOrder<D>(order: seq<nat>, vms: map<nat, Vm<D>>) {
    && (forall i :: 0 <= i < |order| ==> order[i] in vms)
    && (forall i, j :: 0 <= i < j < |order| ==> order[i] != order[j])
    && (forall id | id in vms :: id in order)
  }

  function Publish<D>(s: State<D>, order: seq<nat>): State<D> {
    var adminEntries, infoEntries := Entries(order, AdminPending(s.vms)), Entries(order, InfoPending(s.vms));
    s.(adminList := Filled(|s.vms|, adminEntries),
       infoList := Filled(s.updates, infoEntries),
       outOfBounds := s.outOfBounds || |adminEntries| > |s.vms| || |infoEntries| > s.updates,
       vms := FreedAll(s.vms),
       published := s.published + 1)
  }

  /** A report is counted, and publishes if it is the last one. */
  function Count<D>(s: State<D>, hasInfo: bool, order: seq<nat>): State<D> {
    var s1 := Counted(s, hasInfo);
    if s1.requests != 0 then s1 else Publish(s1, order)
  }

  function Counted<D>(s: State<D>, hasInfo: bool): State<D> {
    s.(updates := if hasInfo then s.updates + 1 else s.updates,
       requests := if s.requests > 0 then s.requests - 1 else s.requests)
  }

  /** The VM holds its report for the round. */
  function Hold<D>(s: State<D>, id: nat, admin: D, info: Option<D>): State<D> {
    s.(vms := s.vms[id := Vm(info.Some?, Some(admin), info, admin, info)], awaiting := s.awaiting - {id})
  }

  function Bulk<D>(s: State<D>, id: nat, admin: D, info: Option<D>, order: seq<nat>): State<D> {
    Count(Hold(s, id, admin, info), info.Some?, order)
  }

  /** The report of a removed VM: the object that holds it is not in the table any more. */
  function Orphan<D>(s: State<D>, hasInfo: bool, order: seq<nat>): State<D>
    requires s.orphans > 0
  {
    Count(s.(orphans := s.orphans - 1), hasInfo, order)
  }

  function Single<D>(s: State<D>, id: nat, admin: D, info: Option<D>): State<D>
    requires id in s.vms
  {
    var vm := s.vms[id].(admin := admin, info := info);
    if vm.pendingAdmin.Some? then
      s.(vms := s.vms[id := vm.(pendingAdmin := Some(admin), pendingInfo := info)])
    else
      var s1 := s.(adminList := UpdateElement(s.adminList, id, admin),
                   vms := s.vms[id := vm.(hasInfo := info.Some?)]);
      if vm.hasInfo && info.None? then
        var rest := Without(s.infoList, id);
        s1.(infoList := rest, outOfBounds := s.outOfBounds || |rest| + 1 != |s.infoList|)
      else if vm.hasInfo then s1.(infoList := UpdateElement(s.infoList, id, info.value))
      else if info.None? then s1
      else s1.(infoList := s.infoList + [Info(id, info.value)])
  }

  function Add<D>(s: State<D>, id: nat, admin: D): State<D> {
    s.(vms := s.vms[id := Vm(false, None, None, admin, None)],
       adminList := s.adminList + [Info(id, admin)])
  }

  function Remove<D>(s: State<D>, id: nat): State<D>
    requires id in s.vms
  {
    var rest := Without(s.adminList, id);
    s.(vms := s.vms - {id}, adminList := rest,
       awaiting := s.awaiting - {id}, orphans := if id in s.awaiting then s.orphans + 1 else s.orphans,
       outOfBounds := s.outOfBounds || |rest| + 1 != |s.adminList|)
  }

  ghost predicate Enabled<D>(s: State<D>, e: Event<D>) {
    match e
    case BeginRound => true
    case BulkReport(id, _, _, order) => id in s.awaiting && id in s.vms && IsOrder(order, s.vms)
    case OrphanReport(_, order) => s.orphans > 0 && IsOrder(order, s.vms)
    case SingleReport(id, _, _) => id in s.vms
    case AddVm(id, _) => id !in s.vms
    case RemoveVm(id) => id in s.vms
  }

  function Step<D>(s: State<D>, e: Event<D>): State<D>
    requires e.SingleReport? || e.RemoveVm? ==> e.id in s.vms
    requires e.OrphanReport? ==> s.orphans > 0
  {
    match e
    case BeginRound =>
      if s.requests != 0 then s
      else s.(requests := |s.vms|, updates := 0, awaiting := s.vms.Keys)
    case BulkReport(id, admin, info, order) => Bulk(s, id, admin, info, order)
    case OrphanReport(hasInfo, order) => Orphan(s, hasInfo, order)
    case SingleReport(id, admin, info) => Single(s, id, admin, info)
    case AddVm(id, admin) => Add(s, id, admin)
    case RemoveVm(id) => Remove(s, id)
  }

  // ----------------------------------------------------------------- invariant

  ghost predicate Lists<D>(l: seq<Slot<D>>, id: nat, data: D) {
    Info(id, data) in l
  }

  /** Entries are not blank, and no VM has two. */
  ghost predicate ProperList<D>(l: seq<Slot<D>>, vms: map<nat, Vm<D>>) {
    && (forall i :: 0 <= i < |l| ==> l[i].Info? && l[i].id in vms)
    && (forall i, j :: 0 <= i < j < |l| ==> l[i].id != l[j].id)
  }

  ghost predicate Listed<D>(l: seq<Slot<D>>, id: nat) {
    exists i :: 0 <= i < |l| && Matches(l[i], id)
  }

  /** The VM's entry is its last report, unless that waits for the round to end. */
  ghost predicate AdminShown<D>(s: State<D>, id: nat)
    requires id in s.vms
  {
    if s.vms[id].pendingAdmin.Some? then Listed(s.adminList, id)
    else Lists(s.adminList, id, s.vms[id].admin)
  }

  ghost predicate InfoShown<D>(s: State<D>, id: nat)
    requires id in s.vms
  {
    s.vms[id].pendingAdmin.None? ==>
      if s.vms[id].info.Some? then Lists(s.infoList, id, s.vms[id].info.value)
      else !Listed(s.infoList, id)
  }

  ghost predicate ListsInv<D>(s: State<D>) {
    && ProperList(s.adminList, s.vms)
    && ProperList(s.infoList, s.vms)
    && (forall id | id in s.vms :: AdminShown(s, id) && InfoShown(s, id))
  }

  /** What a VM holds for the round is its last report, and its flag goes with it. */
  predicate VmOk<D(==)>(vm: Vm<D>) {
    && vm.hasInfo == vm.info.Some?
    && (vm.pendingAdmin.Some? ==> vm.pendingAdmin.value == vm.admin && vm.pendingInfo == vm.info)
  }

  ghost predicate RoundInv<D>(s: State<D>) {
    && !s.outOfBounds
    && (forall id | id in s.vms :: VmOk(s.vms[id]))
    && s.awaiting <= s.vms.Keys && s.requests == |s.awaiting| + s.orphans
    && (forall id | id in s.vms :: s.vms[id].pendingAdmin.Some? <==> s.requests > 0 && id !in s.awaiting)
    && (s.requests > 0 ==> s.updates == |InfoIds(s.vms)|)
  }

  ghost predicate Inv<D>(s: State<D>) {
    RoundInv(s) && ListsInv(s)
  }

  /** One admin entry for each VM and one public entry for each VM with information, each
      showing the VM's last report. */
  ghost predicate ListsRight<D>(s: State<D>) {
    && ProperList(s.adminList, s.vms) && ProperList(s.infoList, s.vms)
    && (forall id | id in s.vms :: Lists(s.adminList, id, s.vms[id].admin))
    && (forall id | id in s.vms :: PublicEntry(s, id))
  }

  ghost predicate PublicEntry<D>(s: State<D>, id: nat)
    requires id in s.vms
  {
    if s.vms[id].info.Some? then Lists(s.infoList, id, s.vms[id].info.value) else !Listed(s.infoList, id)
  }

  /** Besides, the flags say which VMs have a public entry. */
  ghost predicate Agreement<D>(s: State<D>) {
    ListsRight(s) && forall id | id in s.vms :: s.vms[id].hasInfo == s.vms[id].info.Some?
  }

  lemma InvMeansAgreement<D>(s: State<D>)
    requires Inv(s) && s.requests == 0
    ensures Agreement(s)
  {
    forall id | id in s.vms
      ensures Lists(s.adminList, id, s.vms[id].admin) && PublicEntry(s, id)
      ensures s.vms[id].hasInfo == s.vms[id].info.Some?
    {
      assert AdminShown(s, id) && InfoShown(s, id) && VmOk(s.vms[id]);
    }
  }

  // ---------------------------------------------------------------- list facts

  lemma ListsIsListed<D>(l: seq<Slot<D>>, id: nat, data: D)
    requires Lists(l, id, data)
    ensures Listed(l, id)
  {
    var i :| 0 <= i < |l| && l[i] == Info(id, data);
    assert Matches(l[i], id);
  }

  lemma UpdateKeepsList<D>(l: seq<Slot<D>>, vms: map<nat, Vm<D>>, id: nat, data: D)
    requires ProperList(l, vms)
    ensures var l' := UpdateElement(l, id, data);
            && ProperList(l', vms)
            && (Listed(l, id) ==> Lists(l', id, data))
            && (forall k, d {:trigger Lists(l', k, d)} :: k != id ==> (Lists(l, k, d) <==> Lists(l', k, d)))
            && (forall k :: Listed(l, k) <==> Listed(l', k))
  {
    var l' := UpdateElement(l, id, data);
    if Listed(l, id) {
      var i :| 0 <= i < |l| && Matches(l[i], id);
      assert l'[i] == Info(id, data);
    }
    forall k ensures Listed(l, k) <==> Listed(l', k) {
      if i :| 0 <= i < |l| && Matches(l[i], k) { assert Matches(l'[i], k); }
      if i :| 0 <= i < |l'| && Matches(l'[i], k) { assert Matches(l[i], k); }
    }
    forall k, d | k != id ensures Lists(l, k, d) <==> Lists(l', k, d) {
      if Info(k, d) in l {
        var i :| 0 <= i < |l| && l[i] == Info(k, d);
        assert l'[i] == l[i];
      }
      if Info(k, d) in l' {
        var i :| 0 <= i < |l'| && l'[i] == Info(k, d);
        assert l[i] == l'[i];
      }
    }
  }

  lemma {:induction false} WithoutMember<D>(l: seq<Slot<D>>, id: nat, x: Slot<D>)
    ensures x in Without(l, id) <==> x in l && !Matches(x, id)
    decreases |l|
  {
    if l != [] {
      WithoutMember(l[1..], id, x);
      assert x in l <==> x == l[0] || x in l[1..];
    }
  }

  lemma {:induction false} WithoutAbsent<D>(l: seq<Slot<D>>, id: nat)
    requires !Listed(l, id)
    ensures Without(l, id) == l
    decreases |l|
  {
    if l != [] {
      assert !Matches(l[0], id);
      assert forall i :: 0 <= i < |l[1..]| ==> l[1..][i] == l[i + 1];
      WithoutAbsent(l[1..], id);
      assert l == [l[0]] + l[1..];
    }
  }

  lemma ProperTail<D>(l: seq<Slot<D>>, vms: map<nat, Vm<D>>)
    requires ProperList(l, vms) && l != []
    ensures ProperList(l[1..], vms) && !Listed(l[1..], l[0].id)
    ensures forall k :: Listed(l, k) <==> Matches(l[0], k) || Listed(l[1..], k)
  {
    var tail := l[1..];
    assert forall i :: 0 <= i < |tail| ==> tail[i] == l[i + 1];
    forall k | Listed(l, k) && !Matches(l[0], k) ensures Listed(tail, k) {
      var i :| 0 <= i < |l| && Matches(l[i], k);
      assert Matches(tail[i - 1], k);
    }
  }

  lemma ProperCons<D>(x: Slot<D>, rest: seq<Slot<D>>, vms: map<nat, Vm<D>>)
    requires ProperList(rest, vms) && x.Info? && x.id in vms && !Listed(rest, x.id)
    ensures ProperList([x] + rest, vms)
  {
    assert forall j :: 0 <= j < |rest| ==> !Matches(rest[j], x.id);
  }

  lemma WithoutUnlisted<D>(l: seq<Slot<D>>, id: nat, k: nat)
    requires !Listed(l, k)
    ensures !Listed(Without(l, id), k)
  {
    var rest := Without(l, id);
    if j :| 0 <= j < |rest| && Matches(rest[j], k) {
      WithoutMember(l, id, rest[j]);
      assert Listed(l, k);
    }
  }

  /** Removing a listed VM removes exactly one entry. */
  lemma {:induction false} WithoutOne<D>(l: seq<Slot<D>>, vms: map<nat, Vm<D>>, id: nat)
    requires ProperList(l, vms) && Listed(l, id)
    ensures |Without(l, id)| + 1 == |l|
    ensures ProperList(Without(l, id), vms)
    decreases |l|
  {
    var tail := l[1..];
    ProperTail(l, vms);
    if Matches(l[0], id) {
      WithoutAbsent(tail, id);
      assert Without(l, id) == tail;
    } else {
      assert Listed(tail, id);
      WithoutOne(tail, vms, id);
      WithoutUnlisted(tail, id, l[0].id);
      ProperCons(l[0], Without(tail, id), vms);
    }
  }

  lemma WithoutLists<D>(l: seq<Slot<D>>, id: nat)
    ensures !Listed(Without(l, id), id)
    ensures forall k, d {:trigger Lists(l, k, d)} :: k != id && Lists(l, k, d) ==> Lists(Without(l, id), k, d)
    ensures forall k :: k != id ==> (Listed(Without(l, id), k) <==> Listed(l, k))
  {
    var l' := Without(l, id);
    forall i | 0 <= i < |l'| ensures !Matches(l'[i], id) { WithoutMember(l, id, l'[i]); }
    forall k, d {:trigger Lists(l, k, d)} | k != id && Lists(l, k, d) ensures Lists(l', k, d) {
      WithoutMember(l, id, Info(k, d));
    }
    forall k | k != id ensures Listed(l', k) <==> Listed(l, k) {
      if i :| 0 <= i < |l| && Matches(l[i], k) {
        WithoutMember(l, id, l[i]);
        var j :| 0 <= j < |l'| && l'[j] == l[i];
        assert Matches(l'[j], k);
      }
      if i :| 0 <= i < |l'| && Matches(l'[i], k) {
        WithoutMember(l, id, l'[i]);
        var j :| 0 <= j < |l| && l[j] == l'[i];
        assert Matches(l[j], k);
      }
    }
  }

  lemma AppendLists<D>(l: seq<Slot<D>>, vms: map<nat, Vm<D>>, id: nat, data: D)
    requires ProperList(l, vms) && id in vms && !Listed(l, id)
    ensures var l' := l + [Info(id, data)];
            && ProperList(l', vms) && Lists(l', id, data)
            && (forall k, d {:trigger Lists(l', k, d)} :: Lists(l, k, d) ==> Lists(l', k, d))
            && (forall k :: k != id ==> (Listed(l', k) <==> Listed(l, k)))
  {
    var l' := l + [Info(id, data)];
    assert l'[|l|] == Info(id, data);
    forall i | 0 <= i < |l| ensures l[i].id != id { assert !Matches(l[i], id); }
    forall k | k != id ensures Listed(l', k) <==> Listed(l, k) {
      if i :| 0 <= i < |l| && Matches(l[i], k) { assert Matches(l'[i], k); }
      if i :| 0 <= i < |l'| && Matches(l'[i], k) { assert i < |l| && Matches(l[i], k); }
    }
  }

  // ------------------------------------------------------ what publishing collects

  lemma {:induction false} EntryOf<D>(order: seq<nat>, pending: map<nat, D>, x: Slot<D>)
    ensures x in Entries(order, pending) <==>
              x.Info? && x.id in order && x.id in pending && x.data == pending[x.id]
    decreases |order|
  {
    if order != [] {
      EntryOf(order[1..], pending, x);
      if x.Info? { assert x.id in order <==> x.id == order[0] || x.id in order[1..]; }
    }
  }

  function Visited<D>(order: seq<nat>, pending: map<nat, D>): set<nat> {
    set id | id in order && id in pending
  }

  ghost predicate Distinct(order: seq<nat>) {
    forall i, j :: 0 <= i < j < |order| ==> order[i] != order[j]
  }

  lemma {:induction false} EntriesProper<D>(order: seq<nat>, pending: map<nat, D>, vms: map<nat, Vm<D>>)
    requires Distinct(order) && pending.Keys <= vms.Keys
    ensures ProperList(Entries(order, pending), vms)
    ensures |Entries(order, pending)| == |Visited(order, pending)|
    decreases |order|
  {
    if order != [] {
      var first, tail := order[0], order[1..];
      EntriesProper(tail, pending, vms);
      assert first !in tail;
      if first in pending {
        EntriesNotListed(tail, pending, first);
        ProperCons(Info(first, pending[first]), Entries(tail, pending), vms);
        assert Visited(order, pending) == Visited(tail, pending) + {first};
      } else {
        assert Visited(order, pending) == Visited(tail, pending);
      }
    }
  }

  lemma EntriesNotListed<D>(order: seq<nat>, pending: map<nat, D>, id: nat)
    requires id !in order || id !in pending
    ensures !Listed(Entries(order, pending), id)
  {
    var l := Entries(order, pending);
    if j :| 0 <= j < |l| && Matches(l[j], id) { EntryOf(order, pending, l[j]); }
  }

  /** In any order of the table each held report gives one entry. */
  lemma EntriesSize<D>(order: seq<nat>, pending: map<nat, D>, vms: map<nat, Vm<D>>)
    requires IsOrder(order, vms) && pending.Keys <= vms.Keys
    ensures |Entries(order, pending)| == |pending.Keys|
  {
    EntriesProper(order, pending, vms);
    assert Visited(order, pending) == pending.Keys;
  }

  lemma EntryShown<D>(order: seq<nat>, pending: map<nat, D>, vms: map<nat, Vm<D>>, id: nat)
    requires IsOrder(order, vms) && id in vms
    ensures if id in pending then Lists(Entries(order, pending), id, pending[id])
            else !Listed(Entries(order, pending), id)
  {
    if id in pending {
      EntryOf(order, pending, Info(id, pending[id]));
    } else {
      EntriesNotListed(order, pending, id);
    }
  }

  predicate AllReported<D>(vms: map<nat, Vm<D>>) {
    forall id | id in vms :: vms[id].pendingAdmin.Some?
  }

  lemma AdminPendingSize<D>(vms: map<nat, Vm<D>>)
    ensures |AdminPending(vms).Keys| <= |vms|
    ensures |AdminPending(vms).Keys| == |vms| <==> AllReported(vms)
  {
    var held, all := AdminPending(vms).Keys, vms.Keys;
    assert held <= all && |all| == |vms|;
    SubsetSize(held, all);
  }

  lemma SubsetSize(a: set<nat>, b: set<nat>)
    requires a <= b
    ensures |a| <= |b|
    ensures |a| == |b| <==> a == b
  {
    assert b == a + (b - a);
  }

  lemma BlankInFilled<D>(size: nat, entries: seq<Slot<D>>)
    requires Blank !in entries
    ensures Blank in Filled(size, entries) <==> size > |entries|
  {
    if size > |entries| { assert Filled(size, entries)[|entries|] == Blank; }
  }

  /** What a wrong count does: with too few reports in the table an entry stays blank, with
      too many one is written behind the end of the list. */
  lemma PublishDefects<D>(s: State<D>, order: seq<nat>)
    requires IsOrder(order, s.vms) && !s.outOfBounds
    ensures var s' := Publish(s, order);
            && (s'.outOfBounds <==> s.updates < |InfoIds(s.vms)|)
            && (Blank in s'.infoList <==> s.updates > |InfoIds(s.vms)|)
            && (Blank in s'.adminList <==> !AllReported(s.vms))
  {
    PendingSizes(s.vms, order);
    EntryOf(order, AdminPending(s.vms), Blank);
    EntryOf(order, InfoPending(s.vms), Blank);
    BlankInFilled(|s.vms|, Entries(order, AdminPending(s.vms)));
    BlankInFilled(s.updates, Entries(order, InfoPending(s.vms)));
  }

  lemma PendingSizes<D>(vms: map<nat, Vm<D>>, order: seq<nat>)
    requires IsOrder(order, vms)
    ensures |Entries(order, AdminPending(vms))| <= |vms|
    ensures |Entries(order, AdminPending(vms))| == |vms| <==> AllReported(vms)
    ensures |Entries(order, InfoPending(vms))| == |InfoIds(vms)|
  {
    EntriesSize(order, AdminPending(vms), vms);
    EntriesSize(order, InfoPending(vms), vms);
    AdminPendingSize(vms);
    assert InfoPending(vms).Keys == InfoIds(vms);
  }

  /** What a VM holds for the round is its last report. */
  ghost predicate HoldsLast<D>(vms: map<nat, Vm<D>>) {
    forall id | id in vms && vms[id].pendingAdmin.Some? ::
      vms[id].pendingAdmin.value == vms[id].admin && vms[id].pendingInfo == vms[id].info
  }

  /** At the end of a complete round the reset lists have exactly the size of what fills them. */
  lemma CompleteRound<D>(s: State<D>, order: seq<nat>)
    requires IsOrder(order, s.vms) && !s.outOfBounds
    requires AllReported(s.vms) && s.updates == |InfoIds(s.vms)|
    ensures Publish(s, order) ==
              s.(adminList := Entries(order, AdminPending(s.vms)), infoList := Entries(order, InfoPending(s.vms)),
                 published := s.published + 1, vms := FreedAll(s.vms))
  {
    PendingSizes(s.vms, order);
    FilledExactly(Entries(order, AdminPending(s.vms)));
    FilledExactly(Entries(order, InfoPending(s.vms)));
  }

  lemma FilledExactly<D>(entries: seq<Slot<D>>)
    ensures Filled(|entries|, entries) == entries
  {
  }

  lemma CompletePublish<D>(s: State<D>, order: seq<nat>)
    requires IsOrder(order, s.vms) && !s.outOfBounds && HoldsLast(s.vms)
    requires AllReported(s.vms) && s.updates == |InfoIds(s.vms)|
    ensures ListsRight(Publish(s, order)) && !Publish(s, order).outOfBounds
  {
    CompleteRound(s, order);
    var admin, info := AdminPending(s.vms), InfoPending(s.vms);
    var s' := Publish(s, order);
    assert s'.vms.Keys == s.vms.Keys;
    EntriesProper(order, admin, s'.vms);
    EntriesProper(order, info, s'.vms);
    forall id | id in s'.vms
      ensures Lists(s'.adminList, id, s'.vms[id].admin) && PublicEntry(s', id)
    {
      EntryShown(order, admin, s.vms, id);
      EntryShown(order, info, s.vms, id);
    }
  }

  /** The lists that a round publishes are right, and written within their bounds, if and
      only if every VM in the table has reported and the count is that of the public entries
      which the table holds. */
  lemma PublishRightIff<D>(s: State<D>, order: seq<nat>)
    requires IsOrder(order, s.vms) && !s.outOfBounds && HoldsLast(s.vms)
    ensures ListsRight(Publish(s, order)) && !Publish(s, order).outOfBounds <==>
            AllReported(s.vms) && s.updates == |InfoIds(s.vms)|
  {
    PublishDefects(s, order);
    if AllReported(s.vms) && s.updates == |InfoIds(s.vms)| {
      CompletePublish(s, order);
    } else {
      var s' := Publish(s, order);
      assert s'.outOfBounds || Blank in s'.adminList || Blank in s'.infoList;
    }
  }

  // -------------------------------------------------------- books that always balance

  /** Kept by every step of every run: each outstanding report is somebody's, a held report
      is the VM's last, and between rounds nothing is held. */
  ghost predicate BookInv<D>(s: State<D>) {
    && HoldsLast(s.vms)
    && s.awaiting <= s.vms.Keys && s.requests == |s.awaiting| + s.orphans
    && (forall id | id in s.vms && s.vms[id].pendingAdmin.Some? :: s.requests > 0 && id !in s.awaiting)
  }

  lemma CountKeepsBooks<D>(s: State<D>, hasInfo: bool, order: seq<nat>)
    requires HoldsLast(s.vms) && s.awaiting <= s.vms.Keys && s.requests == |s.awaiting| + s.orphans + 1
    requires forall id | id in s.vms && s.vms[id].pendingAdmin.Some? :: id !in s.awaiting
    ensures BookInv(Count(s, hasInfo, order))
  {
  }

  lemma BookStep<D>(s: State<D>, e: Event<D>)
    requires BookInv(s) && Enabled(s, e)
    ensures BookInv(Step(s, e))
  {
    match e
    case BeginRound => assert s.requests == 0 ==> s.awaiting == {};
    case BulkReport(id, admin, info, order) =>
      assert |s.awaiting - {id}| == |s.awaiting| - 1;
      CountKeepsBooks(Hold(s, id, admin, info), info.Some?, order);
    case OrphanReport(hasInfo, order) => CountKeepsBooks(s.(orphans := s.orphans - 1), hasInfo, order);
    case SingleReport(id, admin, info) => SingleKeepsBooks(s, id, admin, info);
    case AddVm(id, admin) =>
    case RemoveVm(id) => RemoveKeepsBooks(s, id);
  }

  lemma SingleKeepsBooks<D>(s: State<D>, id: nat, admin: D, info: Option<D>)
    requires BookInv(s) && id in s.vms
    ensures BookInv(Single(s, id, admin, info))
  {
    var s' := Single(s, id, admin, info);
    assert s'.vms.Keys == s.vms.Keys && s'.awaiting == s.awaiting && s'.requests == s.requests;
  }

  lemma RemoveKeepsBooks<D>(s: State<D>, id: nat)
    requires BookInv(s) && id in s.vms
    ensures BookInv(Remove(s, id))
  {
    if id in s.awaiting {
      assert |s.awaiting - {id}| == |s.awaiting| - 1;
    } else {
      assert s.awaiting - {id} == s.awaiting;
    }
  }

  ghost predicate ValidRun<D>(s: State<D>, es: seq<Event<D>>)
    decreases |es|
  {
    es == [] || (Enabled(s, es[0]) && ValidRun(Step(s, es[0]), es[1..]))
  }

  ghost function Run<D>(s: State<D>, es: seq<Event<D>>): State<D>
    requires ValidRun(s, es)
    decreases |es|
  {
    if es == [] then s else Run(Step(s, es[0]), es[1..])
  }

  lemma {:induction false} BooksBalance<D>(s: State<D>, es: seq<Event<D>>)
    requires BookInv(s) && ValidRun(s, es)
    ensures BookInv(Run(s, es))
    decreases |es|
  {
    if es != [] {
      BookStep(s, es[0]);
      BooksBalance(Step(s, es[0]), es[1..]);
    }
  }

  predicate IsReport<D>(e: Event<D>) {
    e.BulkReport? || e.OrphanReport?
  }

  /** The table and the count at the end of a round, when its last report is in. */
  function LastCount<D>(s: State<D>, e: Event<D>): State<D>
    requires IsReport(e) && (e.OrphanReport? ==> s.orphans > 0)
  {
    match e
    case BulkReport(id, admin, info, _) => Counted(Hold(s, id, admin, info), info.Some?)
    case OrphanReport(hasInfo, _) => Counted(s.(orphans := s.orphans - 1), hasInfo)
  }

  /** For every run, whatever is added, removed or updated while its rounds are open: the
      report that ends a round publishes right lists exactly under that condition. */
  lemma RoundRightIff<D>(es: seq<Event<D>>, e: Event<D>)
    requires ValidRun(Init<D>(), es)
    requires var s := Run(Init<D>(), es); Enabled(s, e) && IsReport(e) && s.requests == 1 && !s.outOfBounds
    ensures var s := Run(Init<D>(), es);
            var last := LastCount(s, e);
            ListsRight(Step(s, e)) && !Step(s, e).outOfBounds <==>
            AllReported(last.vms) && last.updates == |InfoIds(last.vms)|
  {
    BooksBalance(Init<D>(), es);
    var s := Run(Init<D>(), es);
    var last := LastCount(s, e);
    assert last.vms.Keys == s.vms.Keys && HoldsLast(last.vms);
    PublishRightIff(last, e.order);
  }

  // -------------------------------------------------------------------- rounds

  lemma BeginKeepsInv<D>(s: State<D>)
    requires Inv(s)
    ensures Inv(Step(s, BeginRound))
  {
    if s.requests == 0 {
      var s' := Step(s, BeginRound);
      assert s.awaiting == {};
      assert InfoIds(s'.vms) == {};
      forall id | id in s'.vms ensures AdminShown(s', id) && InfoShown(s', id) {
        assert AdminShown(s, id) && InfoShown(s, id);
      }
    }
  }

  /** Within a round, a report counted but the lists not published yet. */
  ghost predicate Counting<D>(s: State<D>) {
    && !s.outOfBounds
    && (forall id | id in s.vms :: VmOk(s.vms[id]))
    && s.awaiting <= s.vms.Keys && s.requests == |s.awaiting| + s.orphans
    && (forall id | id in s.vms :: s.vms[id].pendingAdmin.Some? <==> id !in s.awaiting)
    && s.updates == |InfoIds(s.vms)|
  }

  lemma ReportCounts<D>(s: State<D>, id: nat, admin: D, info: Option<D>)
    requires RoundInv(s) && id in s.awaiting && id in s.vms
    ensures Counting(Counted(Hold(s, id, admin, info), info.Some?))
  {
    assert |s.awaiting - {id}| == |s.awaiting| - 1;
    assert s.requests > 0;
    HoldIds(s, id, admin, info);
  }

  lemma HoldIds<D>(s: State<D>, id: nat, admin: D, info: Option<D>)
    requires id in s.vms && s.vms[id].pendingAdmin.None?
    ensures id !in InfoIds(s.vms)
    ensures InfoIds(Hold(s, id, admin, info).vms) == InfoIds(s.vms) + if info.Some? then {id} else {}
  {
  }

  lemma HoldKeepsLists<D>(s: State<D>, id: nat, admin: D, info: Option<D>)
    requires Inv(s) && id in s.awaiting && id in s.vms
    ensures ListsInv(Hold(s, id, admin, info))
  {
    var s' := Hold(s, id, admin, info);
    forall k | k in s'.vms ensures AdminShown(s', k) && InfoShown(s', k) {
      assert AdminShown(s, k) && InfoShown(s, k);
      if k == id { ListsIsListed(s.adminList, id, s.vms[id].admin); }
    }
  }

  lemma RightListsShow<D>(s: State<D>)
    requires ListsRight(s) && forall id | id in s.vms :: s.vms[id].pendingAdmin.None?
    ensures ListsInv(s)
  {
    forall id | id in s.vms ensures AdminShown(s, id) && InfoShown(s, id) {
      assert Lists(s.adminList, id, s.vms[id].admin) && PublicEntry(s, id);
    }
  }

  /** Publishing a complete round shows every VM's report, and nothing else. */
  lemma PublishKeepsInv<D>(s: State<D>, order: seq<nat>)
    requires Counting(s) && s.requests == 0 && IsOrder(order, s.vms)
    ensures Inv(Publish(s, order))
  {
    assert s.awaiting == {};
    forall id | id in s.vms && s.vms[id].pendingAdmin.Some?
      ensures s.vms[id].pendingAdmin.value == s.vms[id].admin && s.vms[id].pendingInfo == s.vms[id].info
    {
      assert VmOk(s.vms[id]);
    }
    CompletePublish(s, order);
    var s' := Publish(s, order);
    forall id | id in s'.vms ensures VmOk(s'.vms[id]) { assert VmOk(s.vms[id]); }
    RightListsShow(s');
  }

  lemma BulkKeepsInv<D>(s: State<D>, id: nat, admin: D, info: Option<D>, order: seq<nat>)
    requires Inv(s) && Enabled(s, BulkReport(id, admin, info, order))
    ensures Inv(Bulk(s, id, admin, info, order))
  {
    ReportCounts(s, id, admin, info);
    HoldKeepsLists(s, id, admin, info);
    var s1 := Counted(Hold(s, id, admin, info), info.Some?);
    assert s1.vms.Keys == s.vms.Keys;
    if s1.requests == 0 {
      PublishKeepsInv(s1, order);
    } else {
      forall k | k in s1.vms ensures AdminShown(s1, k) && InfoShown(s1, k) {
        assert AdminShown(Hold(s, id, admin, info), k) && InfoShown(Hold(s, id, admin, info), k);
      }
    }
  }

  /** The report of a removed VM does no harm exactly if it is not counted as an entry. */
  lemma OrphanKeepsInvIff<D>(s: State<D>, hasInfo: bool, order: seq<nat>)
    requires Inv(s) && Enabled(s, OrphanReport(hasInfo, order))
    ensures Inv(Orphan(s, hasInfo, order)) <==> !hasInfo
  {
    var s1 := Counted(s.(orphans := s.orphans - 1), hasInfo);
    if hasInfo {
      if s1.requests == 0 {
        PublishDefects(s1, order);
        assert Blank in Publish(s1, order).infoList;
      }
    } else {
      if s1.requests == 0 {
        PublishKeepsInv(s1, order);
      } else {
        forall k | k in s1.vms ensures AdminShown(s1, k) && InfoShown(s1, k) {
          assert AdminShown(s, k) && InfoShown(s, k);
        }
      }
    }
  }

  // ------------------------------------------------------------ single updates

  lemma InfoPendingKept<D>(s: State<D>, id: nat, admin: D, info: Option<D>)
    requires RoundInv(s) && id in s.vms
    requires s.vms[id].pendingAdmin.Some? ==> info.Some? == s.vms[id].hasInfo
    ensures InfoIds(Single(s, id, admin, info).vms) == InfoIds(s.vms)
  {
    assert VmOk(s.vms[id]);
  }

  lemma SingleKeepsRound<D>(s: State<D>, id: nat, admin: D, info: Option<D>)
    requires Inv(s) && id in s.vms
    requires s.vms[id].pendingAdmin.Some? ==> info.Some? == s.vms[id].hasInfo
    ensures RoundInv(Single(s, id, admin, info))
  {
    InfoPendingKept(s, id, admin, info);
    assert VmOk(s.vms[id]) && InfoShown(s, id);
    if s.vms[id].pendingAdmin.None? { SingleInfoList(s, id, admin, info); }
    var s' := Single(s, id, admin, info);
    assert s'.vms.Keys == s.vms.Keys;
    forall k | k in s'.vms ensures VmOk(s'.vms[k]) { assert VmOk(s.vms[k]); }
  }

  /** A report of a VM that waits for the round changes no list. */
  lemma LateSingleKeepsLists<D>(s: State<D>, id: nat, admin: D, info: Option<D>)
    requires Inv(s) && id in s.vms && s.vms[id].pendingAdmin.Some?
    ensures ListsInv(Single(s, id, admin, info))
  {
    var s' := Single(s, id, admin, info);
    forall k | k in s'.vms ensures AdminShown(s', k) && InfoShown(s', k) {
      assert AdminShown(s, k) && InfoShown(s, k);
    }
  }

  lemma SingleAdminList<D>(s: State<D>, id: nat, admin: D, info: Option<D>)
    requires id in s.vms && s.vms[id].pendingAdmin.None?
    requires ProperList(s.adminList, s.vms) && Lists(s.adminList, id, s.vms[id].admin)
    ensures var s' := Single(s, id, admin, info);
            && ProperList(s'.adminList, s'.vms) && Lists(s'.adminList, id, admin)
            && (forall k :: Listed(s'.adminList, k) <==> Listed(s.adminList, k))
            && (forall k, d {:trigger Lists(s.adminList, k, d)} ::
                  k != id && Lists(s.adminList, k, d) ==> Lists(s'.adminList, k, d))
  {
    ListsIsListed(s.adminList, id, s.vms[id].admin);
    UpdateKeepsList(s.adminList, s.vms, id, admin);
    assert Single(s, id, admin, info).vms.Keys == s.vms.Keys;
  }

  lemma SingleInfoList<D>(s: State<D>, id: nat, admin: D, info: Option<D>)
    requires id in s.vms && s.vms[id].pendingAdmin.None? && ProperList(s.infoList, s.vms)
    requires s.vms[id].hasInfo == s.vms[id].info.Some? && PublicEntry(s, id)
    ensures var s' := Single(s, id, admin, info);
            && ProperList(s'.infoList, s.vms) && s'.outOfBounds == s.outOfBounds
            && (if info.Some? then Lists(s'.infoList, id, info.value) else !Listed(s'.infoList, id))
            && (forall k :: k != id ==> (Listed(s'.infoList, k) <==> Listed(s.infoList, k)))
            && (forall k, d {:trigger Lists(s.infoList, k, d)} ::
                  k != id && Lists(s.infoList, k, d) ==> Lists(s'.infoList, k, d))
  {
    var vm := s.vms[id];
    if vm.hasInfo {
      ListsIsListed(s.infoList, id, vm.info.value);
      if info.None? {
        WithoutOne(s.infoList, s.vms, id);
        WithoutLists(s.infoList, id);
      } else {
        UpdateKeepsList(s.infoList, s.vms, id, info.value);
      }
    } else if info.Some? {
      AppendLists(s.infoList, s.vms, id, info.value);
    }
  }

  lemma SingleKeepsLists<D>(s: State<D>, id: nat, admin: D, info: Option<D>)
    requires Inv(s) && id in s.vms && s.vms[id].pendingAdmin.None?
    ensures ListsInv(Single(s, id, admin, info))
  {
    var s' := Single(s, id, admin, info);
    assert VmOk(s.vms[id]) && AdminShown(s, id) && InfoShown(s, id);
    SingleAdminList(s, id, admin, info);
    SingleInfoList(s, id, admin, info);
    forall k | k in s'.vms ensures AdminShown(s', k) && InfoShown(s', k) {
      assert AdminShown(s, k) && InfoShown(s, k);
    }
  }

  /** Whatever went on before: a single update between rounds leaves right lists, within
      their bounds, if and only if the VM's flag says whether it has a public entry. */
  lemma SingleRightIff<D>(s: State<D>, id: nat, admin: D, info: Option<D>)
    requires ListsRight(s) && !s.outOfBounds && id in s.vms && s.vms[id].pendingAdmin.None?
    ensures ListsRight(Single(s, id, admin, info)) && !Single(s, id, admin, info).outOfBounds <==>
            s.vms[id].hasInfo == s.vms[id].info.Some?
  {
    assert PublicEntry(s, id);
    if s.vms[id].hasInfo == s.vms[id].info.Some? {
      RightFlagKeepsLists(s, id, admin, info);
    } else {
      StaleFlagSpoils(s, id, admin, info);
    }
  }

  lemma RightFlagKeepsLists<D>(s: State<D>, id: nat, admin: D, info: Option<D>)
    requires ListsRight(s) && !s.outOfBounds && id in s.vms && s.vms[id].pendingAdmin.None?
    requires s.vms[id].hasInfo == s.vms[id].info.Some?
    ensures ListsRight(Single(s, id, admin, info)) && !Single(s, id, admin, info).outOfBounds
  {
    assert PublicEntry(s, id);
    SingleAdminList(s, id, admin, info);
    SingleInfoList(s, id, admin, info);
    var s' := Single(s, id, admin, info);
    assert s'.vms.Keys == s.vms.Keys;
    forall k | k in s'.vms ensures Lists(s'.adminList, k, s'.vms[k].admin) && PublicEntry(s', k) {
      assert Lists(s.adminList, k, s.vms[k].admin) && PublicEntry(s, k);
    }
  }

  /** With a flag and no entry, the entry that is not there is removed or replaced; without
      the flag, the entry that is there stays or is doubled. */
  lemma StaleFlagSpoils<D>(s: State<D>, id: nat, admin: D, info: Option<D>)
    requires ListsRight(s) && id in s.vms && s.vms[id].pendingAdmin.None?
    requires s.vms[id].hasInfo != s.vms[id].info.Some?
    ensures var s' := Single(s, id, admin, info);
            if s.vms[id].hasInfo then if info.None? then s'.outOfBounds else !Listed(s'.infoList, id)
            else if info.None? then Listed(s'.infoList, id) else !ProperList(s'.infoList, s'.vms)
    ensures !ListsRight(Single(s, id, admin, info)) || Single(s, id, admin, info).outOfBounds
  {
    assert PublicEntry(s, id);
    var s' := Single(s, id, admin, info);
    if s.vms[id].hasInfo {
      if info.None? {
        WithoutAbsent(s.infoList, id);
      } else {
        UpdateKeepsList(s.infoList, s.vms, id, info.value);
        if Lists(s'.infoList, id, info.value) { ListsIsListed(s'.infoList, id, info.value); }
        assert !PublicEntry(s', id);
      }
    } else {
      ListsIsListed(s.infoList, id, s.vms[id].info.value);
      var i :| 0 <= i < |s.infoList| && Matches(s.infoList[i], id);
      if info.None? {
        assert !PublicEntry(s', id);
      } else {
        assert s'.infoList[i].id == s'.infoList[|s.infoList|].id;
      }
    }
  }

  /** A single update is safe at any time, except that a VM whose report already waits for
      the round must not gain or lose its public entry. */
  lemma SingleKeepsInvIff<D>(s: State<D>, id: nat, admin: D, info: Option<D>)
    requires Inv(s) && id in s.vms
    ensures Inv(Single(s, id, admin, info)) <==>
            (s.vms[id].pendingAdmin.Some? ==> info.Some? == s.vms[id].hasInfo)
  {
    var s' := Single(s, id, admin, info);
    if s.vms[id].pendingAdmin.Some? && info.Some? != s.vms[id].hasInfo {
      assert !VmOk(s'.vms[id]);
    } else {
      SingleKeepsRound(s, id, admin, info);
      if s.vms[id].pendingAdmin.Some? { LateSingleKeepsLists(s, id, admin, info); }
      else { SingleKeepsLists(s, id, admin, info); }
    }
  }

  // ------------------------------------------------------- adding and removing

  lemma NotListed<D>(l: seq<Slot<D>>, vms: map<nat, Vm<D>>, id: nat)
    requires ProperList(l, vms) && id !in vms
    ensures !Listed(l, id)
  {
  }

  /** A VM may be added exactly between rounds. */
  lemma AddKeepsInvIff<D>(s: State<D>, id: nat, admin: D)
    requires Inv(s) && id !in s.vms
    ensures Inv(Add(s, id, admin)) <==> s.requests == 0
  {
    var s' := Add(s, id, admin);
    NotListed(s.adminList, s.vms, id);
    NotListed(s.infoList, s.vms, id);
    if s.requests == 0 {
      assert ProperList(s.adminList, s'.vms) && ProperList(s.infoList, s'.vms);
      AppendLists(s.adminList, s'.vms, id, admin);
      forall k | k in s'.vms ensures AdminShown(s', k) && InfoShown(s', k) && VmOk(s'.vms[k]) {
        if k != id { assert AdminShown(s, k) && InfoShown(s, k) && VmOk(s.vms[k]); }
      }
    } else {
      assert id !in s.awaiting && s'.vms[id].pendingAdmin.None?;
    }
  }

  /** Removing a VM is safe exactly if it is not in the public list and no entry of it is
      counted for the open round. */
  lemma RemoveKeepsInvIff<D>(s: State<D>, id: nat)
    requires Inv(s) && id in s.vms
    ensures Inv(Remove(s, id)) <==>
            !Listed(s.infoList, id) && (s.vms[id].pendingAdmin.Some? ==> s.vms[id].info.None?)
  {
    var s' := Remove(s, id);
    assert AdminShown(s, id) && VmOk(s.vms[id]);
    if s.vms[id].pendingAdmin.None? { ListsIsListed(s.adminList, id, s.vms[id].admin); }
    if i :| 0 <= i < |s.infoList| && Matches(s.infoList[i], id) {
      assert s'.infoList[i].id !in s'.vms;
    } else if s.vms[id].pendingAdmin.Some? && s.vms[id].info.Some? {
      RemovedPending(s, id);
    } else {
      SafeRemoval(s, id);
    }
  }

  lemma RemovedPending<D>(s: State<D>, id: nat)
    requires id in s.vms
    ensures InfoIds(Remove(s, id).vms) == InfoIds(s.vms) - {id}
  {
  }

  lemma SafeRemoval<D>(s: State<D>, id: nat)
    requires Inv(s) && id in s.vms && !Listed(s.infoList, id) && Listed(s.adminList, id)
    requires s.vms[id].pendingAdmin.Some? ==> s.vms[id].info.None?
    ensures Inv(Remove(s, id))
  {
    var s' := Remove(s, id);
    assert VmOk(s.vms[id]);
    WithoutOne(s.adminList, s.vms, id);
    WithoutLists(s.adminList, id);
    ShrinkProper(s'.adminList, s.vms, id);
    ShrinkProper(s.infoList, s.vms, id);
    RemovedPending(s, id);
    if id in s.awaiting { assert |s.awaiting - {id}| == |s.awaiting| - 1; }
    forall k | k in s'.vms ensures AdminShown(s', k) && InfoShown(s', k) && VmOk(s'.vms[k]) {
      assert AdminShown(s, k) && InfoShown(s, k) && VmOk(s.vms[k]);
    }
  }

  lemma ShrinkProper<D>(l: seq<Slot<D>>, vms: map<nat, Vm<D>>, id: nat)
    requires ProperList(l, vms) && !Listed(l, id)
    ensures ProperList(l, vms - {id})
  {
    forall i | 0 <= i < |l| ensures l[i].id in vms - {id} { assert !Matches(l[i], id); }
  }

  // ---------------------------------------------------------------------- runs

  /** The step neither spoils what viewers see nor what the open round will publish: see the
      conditions above. */
  ghost predicate Safe<D>(s: State<D>, e: Event<D>) {
    && Enabled(s, e)
    && match e
       case SingleReport(id, _, info) => s.vms[id].pendingAdmin.Some? ==> info.Some? == s.vms[id].hasInfo
       case AddVm(_, _) => s.requests == 0
       case RemoveVm(id) => !Listed(s.infoList, id) && (s.vms[id].pendingAdmin.Some? ==> s.vms[id].info.None?)
       case OrphanReport(hasInfo, _) => !hasInfo
       case _ => true
  }

  /** Those are exactly the steps that keep lists and books in order. */
  lemma InvStepIff<D>(s: State<D>, e: Event<D>)
    requires Inv(s) && Enabled(s, e)
    ensures Inv(Step(s, e)) <==> Safe(s, e)
  {
    match e
    case BeginRound => BeginKeepsInv(s);
    case BulkReport(id, admin, info, order) => BulkKeepsInv(s, id, admin, info, order);
    case OrphanReport(hasInfo, order) => OrphanKeepsInvIff(s, hasInfo, order);
    case SingleReport(id, admin, info) => SingleKeepsInvIff(s, id, admin, info);
    case AddVm(id, admin) => AddKeepsInvIff(s, id, admin);
    case RemoveVm(id) => RemoveKeepsInvIff(s, id);
  }

  ghost predicate SafeRun<D>(s: State<D>, es: seq<Event<D>>)
    requires ValidRun(s, es)
    decreases |es|
  {
    es == [] || (Safe(s, es[0]) && SafeRun(Step(s, es[0]), es[1..]))
  }

  /** For every order of the reports and any single updates among them, whenever no round
      is open both lists show exactly what the VMs reported last. */
  lemma {:induction false} ListsAgree<D>(s: State<D>, es: seq<Event<D>>)
    requires Inv(s) && ValidRun(s, es) && SafeRun(s, es)
    ensures Inv(Run(s, es))
    ensures Run(s, es).requests == 0 ==> Agreement(Run(s, es))
    decreases |es|
  {
    if es != [] {
      InvStepIff(s, es[0]);
      ListsAgree(Step(s, es[0]), es[1..]);
    } else if s.requests == 0 {
      InvMeansAgreement(s);
    }
  }

  /** The same from an empty server on. */
  lemma ListsAgreeFromStart<D>(es: seq<Event<D>>)
    requires ValidRun(Init<D>(), es) && SafeRun(Init<D>(), es)
    ensures Run(Init<D>(), es).requests == 0 ==> Agreement(Run(Init<D>(), es))
  {
    assert InfoIds(Init<D>().vms) == {};
    ListsAgree(Init<D>(), es);
  }

  // ------------------------------------------------- reports, from the events alone

  /** A run is a shorter run and one step more. */
  lemma {:induction false} RunInit<D>(s: State<D>, es: seq<Event<D>>)
    requires ValidRun(s, es) && es != []
    ensures var init, e := es[..|es| - 1], es[|es| - 1];
            ValidRun(s, init) && Enabled(Run(s, init), e) && Run(s, es) == Step(Run(s, init), e)
    decreases |es|
  {
    if |es| == 1 {
      assert es[..0] == [] && es[1..] == [];
    } else {
      RunInit(Step(s, es[0]), es[1..]);
      assert es[1..][..|es| - 2] == es[..|es| - 1][1..];
    }
  }

  /** What the VM last gave for the admin list: when it was added, and with every report
      since; nothing if there is no such VM. */
  function LastAdmin<D>(es: seq<Event<D>>, id: nat): Option<D> {
    if es == [] then None
    else
      var before := LastAdmin(es[..|es| - 1], id);
      match es[|es| - 1]
      case AddVm(k, admin) => if k == id then Some(admin) else before
      case RemoveVm(k) => if k == id then None else before
      case BulkReport(k, admin, _, _) => if k == id then Some(admin) else before
      case SingleReport(k, admin, _) => if k == id then Some(admin) else before
      case _ => before
  }

  /** And for the public list: a new VM has nothing to show there. */
  function LastInfo<D>(es: seq<Event<D>>, id: nat): Option<D> {
    if es == [] then None
    else
      var before := LastInfo(es[..|es| - 1], id);
      match es[|es| - 1]
      case AddVm(k, _) => if k == id then None else before
      case RemoveVm(k) => if k == id then None else before
      case BulkReport(k, _, info, _) => if k == id then info else before
      case SingleReport(k, _, info) => if k == id then info else before
      case _ => before
  }

  /** The number of reports to come: a round that is begun while none is open asks every VM. */
  function Outstanding<D>(es: seq<Event<D>>): int {
    if es == [] then 0
    else
      var before := Outstanding(es[..|es| - 1]);
      match es[|es| - 1]
      case BeginRound => if before == 0 then |Present(es[..|es| - 1])| else before
      case BulkReport(_, _, _, _) => before - 1
      case OrphanReport(_, _) => before - 1
      case _ => before
  }

  function Present<D>(es: seq<Event<D>>): set<nat> {
    if es == [] then {}
    else
      var before := Present(es[..|es| - 1]);
      match es[|es| - 1]
      case AddVm(id, _) => before + {id}
      case RemoveVm(id) => before - {id}
      case _ => before
  }

  /** Counting and publishing leave what is on record. */
  lemma CountKeepsRecord<D>(s: State<D>, hasInfo: bool, order: seq<nat>)
    ensures var s' := Count(s, hasInfo, order);
            && s'.vms.Keys == s.vms.Keys
            && s'.requests == (if s.requests > 0 then s.requests - 1 else 0)
            && (forall id | id in s.vms :: s'.vms[id].admin == s.vms[id].admin && s'.vms[id].info == s.vms[id].info)
  {
  }

  lemma SingleRecord<D>(s: State<D>, k: nat, admin: D, info: Option<D>)
    requires k in s.vms
    ensures var s' := Single(s, k, admin, info);
            && s'.vms.Keys == s.vms.Keys && s'.requests == s.requests
            && s'.vms[k].admin == admin && s'.vms[k].info == info
            && (forall id | id in s.vms && id != k :: s'.vms[id] == s.vms[id])
  {
  }

  lemma RecordStep<D>(s: State<D>, e: Event<D>, id: nat)
    requires Enabled(s, e)
    ensures var s' := Step(s, e);
            && (id in s'.vms <==> (e.AddVm? && e.id == id) || (id in s.vms && e != RemoveVm(id)))
            && (id in s'.vms ==>
                  if e.AddVm? && e.id == id then s'.vms[id].admin == e.admin && s'.vms[id].info == None
                  else if (e.BulkReport? || e.SingleReport?) && e.id == id
                  then s'.vms[id].admin == e.admin && s'.vms[id].info == e.info
                  else s'.vms[id].admin == s.vms[id].admin && s'.vms[id].info == s.vms[id].info)
  {
    match e
    case BulkReport(k, admin, info, order) => CountKeepsRecord(Hold(s, k, admin, info), info.Some?, order);
    case OrphanReport(hasInfo, order) => CountKeepsRecord(s.(orphans := s.orphans - 1), hasInfo, order);
    case SingleReport(k, admin, info) => SingleRecord(s, k, admin, info);
    case _ =>
  }

  /** Over every run, what is on record of a VM is what it gave last. */
  lemma {:induction false} RecordsAreLast<D>(es: seq<Event<D>>, id: nat)
    requires ValidRun(Init<D>(), es)
    ensures var s := Run(Init<D>(), es);
            && (id in s.vms <==> LastAdmin(es, id).Some?)
            && (id in s.vms ==> s.vms[id].admin == LastAdmin(es, id).value && s.vms[id].info == LastInfo(es, id))
            && (id !in s.vms ==> LastInfo(es, id) == None)
    decreases |es|
  {
    if es != [] {
      RunInit(Init<D>(), es);
      var init := es[..|es| - 1];
      RecordsAreLast(init, id);
      RecordStep(Run(Init<D>(), init), es[|es| - 1], id);
    }
  }

  /** And the open round asks for the reports that it should. */
  lemma {:induction false} RoundsAsk<D>(es: seq<Event<D>>)
    requires ValidRun(Init<D>(), es)
    ensures var s := Run(Init<D>(), es);
            s.vms.Keys == Present(es) && s.requests == Outstanding(es)
    decreases |es|
  {
    if es != [] {
      RunInit(Init<D>(), es);
      var init, e := es[..|es| - 1], es[|es| - 1];
      RoundsAsk(init);
      BooksBalance(Init<D>(), init);
      var before := Run(Init<D>(), init);
      assert e.BulkReport? ==> |before.awaiting| > 0;
      PresentStep(before, e);
      AskStep(before, e);
    }
  }

  lemma PresentStep<D>(s: State<D>, e: Event<D>)
    requires Enabled(s, e)
    ensures Step(s, e).vms.Keys == (match e
                                    case AddVm(id, _) => s.vms.Keys + {id}
                                    case RemoveVm(id) => s.vms.Keys - {id}
                                    case _ => s.vms.Keys)
  {
    match e
    case BulkReport(k, admin, info, order) => CountKeepsRecord(Hold(s, k, admin, info), info.Some?, order);
    case OrphanReport(hasInfo, order) => CountKeepsRecord(s.(orphans := s.orphans - 1), hasInfo, order);
    case SingleReport(k, admin, info) => SingleRecord(s, k, admin, info);
    case _ =>
  }

  lemma AskStep<D>(s: State<D>, e: Event<D>)
    requires Enabled(s, e) && (IsReport(e) ==> s.requests > 0)
    ensures Step(s, e).requests == (match e
                                    case BeginRound => if s.requests == 0 then |s.vms.Keys| else s.requests
                                    case BulkReport(_, _, _, _) => s.requests - 1
                                    case OrphanReport(_, _) => s.requests - 1
                                    case _ => s.requests)
  {
    match e
    case BulkReport(k, admin, info, order) => CountKeepsRecord(Hold(s, k, admin, info), info.Some?, order);
    case OrphanReport(hasInfo, order) => CountKeepsRecord(s.(orphans := s.orphans - 1), hasInfo, order);
    case SingleReport(k, admin, info) => SingleRecord(s, k, admin, info);
    case _ =>
  }

  /** The list has one entry for each VM of which there is something last, with that. */
  ghost predicate Shows<D>(l: seq<Slot<D>>, last: nat -> Option<D>) {
    && Blank !in l
    && (forall i, j :: 0 <= i < j < |l| && l[i].Info? && l[j].Info? ==> l[i].id != l[j].id)
    && (forall i :: 0 <= i < |l| && l[i].Info? ==> last(l[i].id) == Some(l[i].data))
    && (forall id :: last(id).Some? ==> Info(id, last(id).value) in l)
  }

  /** The admin list shows the VMs that there are, the public list those with information. */
  ghost predicate ShowsReports<D>(s: State<D>, es: seq<Event<D>>) {
    Shows(s.adminList, id => LastAdmin(es, id)) && Shows(s.infoList, id => LastInfo(es, id))
  }

  lemma RightShows<D>(l: seq<Slot<D>>, vms: map<nat, Vm<D>>, last: nat -> Option<D>)
    requires ProperList(l, vms)
    requires forall id :: last(id).Some? ==> id in vms
    requires forall id | id in vms :: if last(id).Some? then Lists(l, id, last(id).value) else !Listed(l, id)
    ensures Shows(l, last)
  {
    forall i | 0 <= i < |l| ensures last(l[i].id) == Some(l[i].data) {
      assert Matches(l[i], l[i].id);
    }
  }

  lemma ShowsRight<D>(l: seq<Slot<D>>, vms: map<nat, Vm<D>>, last: nat -> Option<D>)
    requires Shows(l, last)
    requires forall id :: last(id).Some? ==> id in vms
    ensures ProperList(l, vms)
    ensures forall id | id in vms :: if last(id).Some? then Lists(l, id, last(id).value) else !Listed(l, id)
  {
    forall i | 0 <= i < |l| ensures l[i].Info? && l[i].id in vms { assert l[i] != Blank; }
  }

  /** For every run from an empty server: the lists are right if and only if they show, once
      each, what the VMs that are there gave last. */
  lemma RightIffShowsReports<D>(es: seq<Event<D>>)
    requires ValidRun(Init<D>(), es)
    ensures ListsRight(Run(Init<D>(), es)) <==> ShowsReports(Run(Init<D>(), es), es)
  {
    var s := Run(Init<D>(), es);
    var admin, info := (id: nat) => LastAdmin(es, id), (id: nat) => LastInfo(es, id);
    forall id
      ensures id in s.vms <==> admin(id).Some?
      ensures id in s.vms ==> s.vms[id].admin == admin(id).value && s.vms[id].info == info(id)
      ensures info(id).Some? ==> id in s.vms
    {
      RecordsAreLast(es, id);
    }
    if ListsRight(s) {
      forall id | id in s.vms ensures Lists(s.adminList, id, s.vms[id].admin) && PublicEntry(s, id) {}
      RightShows(s.adminList, s.vms, admin);
      RightShows(s.infoList, s.vms, info);
    }
    if ShowsReports(s, es) {
      ShowsRight(s.adminList, s.vms, admin);
      ShowsRight(s.infoList, s.vms, info);
    }
  }

  /** So between rounds of a safe run viewers see exactly that. */
  lemma ViewersSeeLastReports<D>(es: seq<Event<D>>)
    requires ValidRun(Init<D>(), es) && SafeRun(Init<D>(), es) && Outstanding(es) == 0
    ensures ShowsReports(Run(Init<D>(), es), es)
  {
    RoundsAsk(es);
    ListsAgreeFromStart(es);
    RightIffShowsReports(es);
  }

  /** And so do they, whatever went on before, after a round that ends with every VM's report
      and the right count; otherwise they do not, or a write was out of bounds. */
  lemma RoundShowsReportsIff<D>(es: seq<Event<D>>, e: Event<D>)
    requires ValidRun(Init<D>(), es)
    requires var s := Run(Init<D>(), es); Enabled(s, e) && IsReport(e) && s.requests == 1 && !s.outOfBounds
    ensures var s := Run(Init<D>(), es);
            var last := LastCount(s, e);
            ShowsReports(Step(s, e), es + [e]) && !Step(s, e).outOfBounds <==>
            AllReported(last.vms) && last.updates == |InfoIds(last.vms)|
  {
    var s := Run(Init<D>(), es);
    RunOne(s, e);
    RunAppend(Init<D>(), es, [e]);
    RightIffShowsReports(es + [e]);
    RoundRightIff(es, e);
  }

  // ------------------------------------------------- what an unsafe step leads to

  /** What viewers are shown: no blank entry, no VM that is gone, none twice, nothing written
      out of bounds, and between rounds what every VM reported last. */
  ghost predicate Right<D>(s: State<D>) {
    && !s.outOfBounds
    && ProperList(s.adminList, s.vms) && ProperList(s.infoList, s.vms)
    && (s.requests == 0 ==> ListsRight(s))
  }

  lemma InvIsRight<D>(s: State<D>)
    requires Inv(s)
    ensures Right(s) && BookInv(s)
  {
    if s.requests == 0 { InvMeansAgreement(s); }
    forall id | id in s.vms && s.vms[id].pendingAdmin.Some?
      ensures s.vms[id].pendingAdmin.value == s.vms[id].admin && s.vms[id].pendingInfo == s.vms[id].info
    {
      assert VmOk(s.vms[id]);
    }
  }

  lemma {:induction false} OrderExists<D>(vms: map<nat, Vm<D>>) returns (order: seq<nat>)
    ensures IsOrder(order, vms)
    decreases |vms|
  {
    if vms == map[] {
      order := [];
    } else {
      var id :| id in vms;
      var rest := OrderExists(vms - {id});
      order := rest + [id];
      assert forall i :: 0 <= i < |rest| ==> order[i] == rest[i] && rest[i] in vms - {id};
      forall k | k in vms ensures k in order {
        if k != id { assert k in vms - {id} && k in rest; }
      }
    }
  }

  /** Some VM is neither asked nor has it reported. */
  ghost predicate Missed<D>(s: State<D>) {
    exists id :: id in s.vms && id !in s.awaiting && s.vms[id].pendingAdmin.None?
  }

  /** The next report of an open round, with no information. */
  lemma NextReport<D>(t: State<D>) returns (e: Event<D>)
    requires BookInv(t) && t.requests > 0
    ensures Enabled(t, e) && IsReport(e) && Safe(t, e)
    ensures LastCount(t, e).updates == t.updates && InfoIds(LastCount(t, e).vms) == InfoIds(t.vms)
    ensures LastCount(t, e).outOfBounds == t.outOfBounds && LastCount(t, e).requests == t.requests - 1
    ensures Missed(t) ==> Missed(LastCount(t, e)) && !AllReported(LastCount(t, e).vms)
  {
    var order := OrderExists(t.vms);
    if t.awaiting != {} {
      var id :| id in t.awaiting;
      e := BulkReport(id, t.vms[id].admin, None, order);
    } else {
      e := OrphanReport(false, order);
    }
    if Missed(t) {
      var m :| m in t.vms && m !in t.awaiting && t.vms[m].pendingAdmin.None?;
      assert LastCount(t, e).vms[m].pendingAdmin.None?;
    }
  }

  /** Once the count is wrong, or a VM was missed, the reports that are still to come end
      the round with something wrong. */
  lemma {:induction false} FinishWrong<D>(t: State<D>) returns (es: seq<Event<D>>)
    requires BookInv(t) && t.requests > 0 && !t.outOfBounds
    requires t.updates != |InfoIds(t.vms)| || Missed(t)
    ensures ValidRun(t, es) && SafeRun(t, es) && !Right(Run(t, es))
    decreases t.requests
  {
    var e := NextReport(t);
    BookStep(t, e);
    var rest := [];
    if t.requests == 1 {
      LastReport(t, e);
    } else {
      assert Step(t, e) == LastCount(t, e);
      rest := FinishWrong(Step(t, e));
    }
    RunPrepend(t, e, rest);
    SafePrepend(t, e, rest);
    es := [e] + rest;
  }

  lemma SafePrepend<D>(t: State<D>, e: Event<D>, es: seq<Event<D>>)
    requires Safe(t, e) && ValidRun(Step(t, e), es) && SafeRun(Step(t, e), es) && ValidRun(t, [e] + es)
    ensures SafeRun(t, [e] + es)
  {
    assert ([e] + es)[1..] == es;
  }

  /** Something is wrong already, or the open round is bound to end wrong. */
  ghost predicate Doomed<D>(t: State<D>) {
    !Right(t) || (t.requests > 0 && (t.updates != |InfoIds(t.vms)| || Missed(t)))
  }

  lemma UnsafeSingle<D>(s: State<D>, id: nat, admin: D, info: Option<D>)
    requires Inv(s) && id in s.vms && s.vms[id].pendingAdmin.Some? && info.Some? != s.vms[id].hasInfo
    ensures Doomed(Single(s, id, admin, info))
  {
    LateSingle(s, id, admin, info);
    assert VmOk(s.vms[id]);
    assert id in InfoIds(s.vms) <==> s.vms[id].hasInfo;
  }

  lemma LateSingle<D>(s: State<D>, id: nat, admin: D, info: Option<D>)
    requires id in s.vms && s.vms[id].pendingAdmin.Some?
    ensures var t := Single(s, id, admin, info);
            && t.updates == s.updates && t.requests == s.requests
            && InfoIds(t.vms) == if info.Some? then InfoIds(s.vms) + {id} else InfoIds(s.vms) - {id}
  {
  }

  lemma UnsafeAdd<D>(s: State<D>, id: nat, admin: D)
    requires Inv(s) && id !in s.vms && s.requests > 0
    ensures Doomed(Add(s, id, admin))
  {
    var t := Add(s, id, admin);
    assert t.vms[id].pendingAdmin.None? && id !in t.awaiting;
  }

  lemma UnsafeRemoval<D>(s: State<D>, id: nat)
    requires Inv(s) && id in s.vms
    requires Listed(s.infoList, id) || (s.vms[id].pendingAdmin.Some? && s.vms[id].info.Some?)
    ensures Doomed(Remove(s, id))
  {
    var t := Remove(s, id);
    if i :| 0 <= i < |s.infoList| && Matches(s.infoList[i], id) {
      assert t.infoList[i].id !in t.vms;
    } else {
      RemovedPending(s, id);
      assert VmOk(s.vms[id]) && id in InfoIds(s.vms);
    }
  }

  lemma UnsafeOrphan<D>(s: State<D>, order: seq<nat>)
    requires Inv(s) && Enabled(s, OrphanReport(true, order))
    ensures Doomed(Orphan(s, true, order))
  {
    if s.requests == 1 {
      LastReport(s, OrphanReport(true, order));
      assert Blank in Orphan(s, true, order).infoList;
    }
  }

  lemma UnsafeStep<D>(s: State<D>, e: Event<D>)
    requires Inv(s) && Enabled(s, e) && !Safe(s, e)
    ensures Doomed(Step(s, e))
  {
    match e
    case SingleReport(id, admin, info) => UnsafeSingle(s, id, admin, info);
    case AddVm(id, admin) => UnsafeAdd(s, id, admin);
    case RemoveVm(id) => UnsafeRemoval(s, id);
    case OrphanReport(hasInfo, order) => UnsafeOrphan(s, order);
  }

  lemma UnsafeGoesWrong<D>(s: State<D>, e: Event<D>) returns (es: seq<Event<D>>)
    requires Inv(s) && Enabled(s, e) && !Safe(s, e)
    ensures ValidRun(Step(s, e), es) && SafeRun(Step(s, e), es) && !Right(Run(Step(s, e), es))
  {
    InvIsRight(s);
    BookStep(s, e);
    UnsafeStep(s, e);
    if Right(Step(s, e)) {
      es := FinishWrong(Step(s, e));
    } else {
      es := [];
    }
  }

  lemma SafeStaysRight<D>(s: State<D>, e: Event<D>, es: seq<Event<D>>)
    requires Inv(s) && Safe(s, e) && ValidRun(Step(s, e), es) && SafeRun(Step(s, e), es)
    ensures Right(Run(Step(s, e), es))
  {
    InvStepIff(s, e);
    ListsAgree(Step(s, e), es);
    InvIsRight(Run(Step(s, e), es));
  }

  /** From a state in order, a step is safe if and only if, however reports, updates,
      additions and removals go on safely from there, viewers never see anything wrong. */
  lemma SafeIffAlwaysRight<D>(s: State<D>, e: Event<D>)
    requires Inv(s) && Enabled(s, e)
    ensures Safe(s, e) <==>
            forall es :: ValidRun(Step(s, e), es) && SafeRun(Step(s, e), es) ==> Right(Run(Step(s, e), es))
  {
    if Safe(s, e) {
      forall es | ValidRun(Step(s, e), es) && SafeRun(Step(s, e), es) ensures Right(Run(Step(s, e), es)) {
        SafeStaysRight(s, e, es);
      }
    } else {
      var es := UnsafeGoesWrong(s, e);
    }
  }

  function Reports<D>(es: seq<Event<D>>): nat {
    if es == [] then 0 else (if IsReport(es[0]) then 1 else 0) + Reports(es[1..])
  }

  /** No second round is begun once the first is over. */
  ghost predicate OneRound<D>(s: State<D>, es: seq<Event<D>>)
    requires ValidRun(s, es)
    decreases |es|
  {
    es == [] || (!(es[0].BeginRound? && s.requests == 0) && OneRound(Step(s, es[0]), es[1..]))
  }

  lemma StepCounts<D>(s: State<D>, e: Event<D>)
    requires BookInv(s) && Enabled(s, e) && !(e.BeginRound? && s.requests == 0)
    ensures IsReport(e) ==> s.requests > 0
    ensures Step(s, e).requests == s.requests - (if IsReport(e) then 1 else 0)
    ensures Step(s, e).published == s.published + (if IsReport(e) && s.requests == 1 then 1 else 0)
  {
    if e.BulkReport? { assert s.awaiting != {}; }
  }

  /** An open round publishes once, with its last report, whatever happens meanwhile. */
  lemma {:induction false} RoundPublishesOnce<D>(s: State<D>, es: seq<Event<D>>)
    requires BookInv(s) && ValidRun(s, es) && OneRound(s, es)
    ensures Reports(es) <= s.requests
    ensures Run(s, es).requests == s.requests - Reports(es)
    ensures Run(s, es).published == s.published + (if Reports(es) == s.requests > 0 then 1 else 0)
    decreases |es|
  {
    if es != [] {
      BookStep(s, es[0]);
      StepCounts(s, es[0]);
      RoundPublishesOnce(Step(s, es[0]), es[1..]);
    }
  }

  // --------------------------------------------------------- runs that go wrong

  lemma RunPrepend<D>(s: State<D>, e: Event<D>, es: seq<Event<D>>)
    requires Enabled(s, e) && ValidRun(Step(s, e), es)
    ensures ValidRun(s, [e] + es) && Run(s, [e] + es) == Run(Step(s, e), es)
  {
    assert ([e] + es)[1..] == es;
  }

  lemma RunOne<D>(s: State<D>, e: Event<D>)
    requires Enabled(s, e)
    ensures ValidRun(s, [e]) && Run(s, [e]) == Step(s, e)
  {
    RunPrepend(s, e, []);
    assert [e] + [] == [e];
  }

  lemma RunThree<D>(s: State<D>, a: Event<D>, b: Event<D>, c: Event<D>)
    requires Enabled(s, a) && Enabled(Step(s, a), b) && Enabled(Step(Step(s, a), b), c)
    ensures ValidRun(s, [a, b, c]) && Run(s, [a, b, c]) == Step(Step(Step(s, a), b), c)
  {
    RunTwo(Step(s, a), b, c);
    RunPrepend(s, a, [b, c]);
    assert [a] + [b, c] == [a, b, c];
  }

  lemma RunTwo<D>(s: State<D>, b: Event<D>, c: Event<D>)
    requires Enabled(s, b) && Enabled(Step(s, b), c)
    ensures ValidRun(s, [b, c]) && Run(s, [b, c]) == Step(Step(s, b), c)
  {
    RunOne(Step(s, b), c);
    RunPrepend(s, b, [c]);
    assert [b] + [c] == [b, c];
  }

  lemma {:induction false} RunAppend<D>(s: State<D>, es: seq<Event<D>>, fs: seq<Event<D>>)
    requires ValidRun(s, es) && ValidRun(Run(s, es), fs)
    ensures ValidRun(s, es + fs) && Run(s, es + fs) == Run(Run(s, es), fs)
    decreases |es|
  {
    if es == [] {
      assert es + fs == fs;
    } else {
      RunAppend(Step(s, es[0]), es[1..], fs);
      assert (es + fs)[1..] == es[1..] + fs;
    }
  }

  const QUIET: Vm<int> := Vm(false, None, None, 0, None)

  /** Two VMs, and a round that neither has reported to. */
  const TWO: State<int> :=
    State(map[1 := QUIET, 2 := QUIET], 2, 0, {1, 2}, 0, [Info(1, 0), Info(2, 0)], [], false, 0)

  lemma TwoVms() returns (es: seq<Event<int>>)
    ensures ValidRun(Init(), es) && Run(Init(), es) == TWO
  {
    es := [AddVm(1, 0), AddVm(2, 0), BeginRound];
    RunThree(Init(), es[0], es[1], es[2]);
    var s := Step(Step(Init<int>(), es[0]), es[1]);
    assert s.vms == TWO.vms && s.vms.Keys == {1, 2} && |s.vms.Keys| == |s.vms|;
    assert s.adminList == TWO.adminList;
  }

  lemma Orders(vms: map<nat, Vm<int>>)
    requires vms.Keys == {1, 2}
    ensures IsOrder([1, 2], vms)
  {
    assert 1 in [1, 2] && 2 in [1, 2];
  }

  /** What the table and the count come to when the last report is in. */
  lemma LastReport<D>(t: State<D>, c: Event<D>)
    requires Enabled(t, c) && IsReport(c) && t.requests == 1 && !t.outOfBounds
    ensures var r := Step(t, c);
            var last := LastCount(t, c);
            && (r.outOfBounds <==> last.updates < |InfoIds(last.vms)|)
            && (Blank in r.infoList <==> last.updates > |InfoIds(last.vms)|)
            && (Blank in r.adminList <==> !AllReported(last.vms))
  {
    assert LastCount(t, c).vms.Keys == t.vms.Keys;
    PublishDefects(LastCount(t, c), c.order);
  }

  lemma RunFrom(s: State<int>, es: seq<Event<int>>, a: Event<int>, b: Event<int>, c: Event<int>)
    requires ValidRun(Init(), es) && Run(Init(), es) == s
    requires Enabled(s, a) && Enabled(Step(s, a), b) && Enabled(Step(Step(s, a), b), c)
    ensures ValidRun(Init(), es + [a, b, c])
    ensures Run(Init(), es + [a, b, c]) == Step(Step(Step(s, a), b), c)
  {
    RunThree(s, a, b, c);
    RunAppend(Init(), es, [a, b, c]);
  }

  /** The first VM has reported `first` to the round, and then `second` by itself. */
  function Reported(first: Option<int>, second: Option<int>): State<int> {
    State(map[1 := Vm(first.Some?, Some(0), second, 0, second), 2 := QUIET], 1, if first.Some? then 1 else 0,
          {2}, 0, TWO.adminList, [], false, 0)
  }

  lemma FirstReport(first: Option<int>)
    ensures Enabled(TWO, BulkReport(1, 0, first, [1, 2]))
    ensures Step(TWO, BulkReport(1, 0, first, [1, 2])) == Reported(first, first)
  {
    Orders(TWO.vms);
    var s := Step(TWO, BulkReport(1, 0, first, [1, 2]));
    assert s.vms == Reported(first, first).vms && s.awaiting == {2};
  }

  lemma SecondReport(first: Option<int>, second: Option<int>)
    ensures Step(Reported(first, first), SingleReport(1, 0, second)) == Reported(first, second)
  {
    assert Step(Reported(first, first), SingleReport(1, 0, second)).vms == Reported(first, second).vms;
  }

  lemma RoundEnds(first: Option<int>, second: Option<int>)
    ensures var s, c := Reported(first, second), BulkReport(2, 0, None, [1, 2]);
            && Enabled(s, c)
            && var reported, held := if first.Some? then 1 else 0, if second.Some? then 1 else 0;
               (Step(s, c).outOfBounds <==> reported < held) && (Blank in Step(s, c).infoList <==> reported > held)
  {
    var s, c := Reported(first, second), BulkReport(2, 0, None, [1, 2]);
    Orders(s.vms);
    CountAtEnd(first, second);
    LastReport(s, c);
  }

  lemma CountAtEnd(first: Option<int>, second: Option<int>)
    ensures var last := LastCount(Reported(first, second), BulkReport(2, 0, None, [1, 2]));
            && last.updates == (if first.Some? then 1 else 0)
            && |InfoIds(last.vms)| == (if second.Some? then 1 else 0)
  {
    var last := LastCount(Reported(first, second), BulkReport(2, 0, None, [1, 2]));
    assert last.vms[1].pendingInfo == second && last.vms[2].pendingInfo == None;
    assert InfoIds(last.vms) == if second.Some? then {1} else {};
  }

  /** The first VM reports, and reports again before the second one does. */
  lemma LateUpdate(first: Option<int>, second: Option<int>) returns (es: seq<Event<int>>)
    ensures ValidRun(Init(), es)
    ensures var reported, held := if first.Some? then 1 else 0, if second.Some? then 1 else 0;
            && (Run(Init(), es).outOfBounds <==> reported < held)
            && (Blank in Run(Init(), es).infoList <==> reported > held)
  {
    var start := TwoVms();
    FirstReport(first);
    SecondReport(first, second);
    RoundEnds(first, second);
    var a, b, c := BulkReport(1, 0, first, [1, 2]), SingleReport(1, 0, second), BulkReport(2, 0, None, [1, 2]);
    RunFrom(TWO, start, a, b, c);
    es := start + [a, b, c];
  }

  /** It loses its information: an entry of the public list stays blank. */
  lemma LateDropLeavesBlank() returns (es: seq<Event<int>>)
    ensures ValidRun(Init(), es) && Blank in Run(Init(), es).infoList
  {
    es := LateUpdate(Some(7), None);
  }

  /** It gains information: the entry is written behind the end of the list. */
  lemma LateGainOverflows() returns (es: seq<Event<int>>)
    ensures ValidRun(Init(), es) && Run(Init(), es).outOfBounds
  {
    es := LateUpdate(None, Some(7));
  }

  /** One VM left, the report of the other one counted as an entry. */
  const ORPHANED: State<int> :=
    State(map[1 := QUIET], 1, 1, {1}, 0, [Info(1, 0)], [], false, 0)

  lemma SecondIsRemoved()
    ensures Enabled(TWO, RemoveVm(2)) && Enabled(Step(TWO, RemoveVm(2)), OrphanReport(true, [1]))
    ensures Step(Step(TWO, RemoveVm(2)), OrphanReport(true, [1])) == ORPHANED
  {
    var s := Step(TWO, RemoveVm(2));
    assert s.vms == map[1 := QUIET] && 1 in [1] && s.awaiting == {1};
    assert TWO.adminList[1..] == [Info(2, 0)] && [Info(2, 0)][1..] == [];
    assert s.adminList == [Info(1, 0)];
  }

  lemma FirstEndsRound()
    ensures Enabled(ORPHANED, BulkReport(1, 0, None, [1]))
    ensures Blank in Step(ORPHANED, BulkReport(1, 0, None, [1])).infoList
  {
    var c := BulkReport(1, 0, None, [1]);
    assert 1 in [1];
    LastReport(ORPHANED, c);
    assert InfoIds(LastCount(ORPHANED, c).vms) == {};
  }

  /** The second VM is removed before it reports: its report is still counted. */
  lemma OrphanLeavesBlank() returns (es: seq<Event<int>>)
    ensures ValidRun(Init(), es) && Blank in Run(Init(), es).infoList
  {
    var start := TwoVms();
    SecondIsRemoved();
    FirstEndsRound();
    RunFrom(TWO, start, RemoveVm(2), OrphanReport(true, [1]), BulkReport(1, 0, None, [1]));
    es := start + [RemoveVm(2), OrphanReport(true, [1]), BulkReport(1, 0, None, [1])];
  }

  /** One VM more than the open round asks for. */
  const GROWN: State<int> :=
    State(map[1 := QUIET, 2 := QUIET], 1, 0, {1}, 0, [Info(1, 0), Info(2, 0)], [], false, 0)

  lemma VmIsAdded() returns (es: seq<Event<int>>)
    ensures ValidRun(Init(), es) && Run(Init(), es) == GROWN
  {
    es := [AddVm(1, 0), BeginRound, AddVm(2, 0)];
    RunThree(Init(), es[0], es[1], es[2]);
    var s := Step(Init<int>(), es[0]);
    assert s.vms == map[1 := QUIET] && s.vms.Keys == {1} && |s.vms.Keys| == |s.vms|;
    assert [Info(1, 0)] + [Info(2, 0)] == GROWN.adminList;
  }

  /** A VM is added while the round is open: its admin entry is blanked. */
  lemma AdditionLeavesBlank() returns (es: seq<Event<int>>)
    ensures ValidRun(Init(), es) && Blank in Run(Init(), es).adminList
  {
    var first := VmIsAdded();
    var d := BulkReport(1, 0, None, [1, 2]);
    Orders(GROWN.vms);
    LastReport(GROWN, d);
    assert LastCount(GROWN, d).vms[2].pendingAdmin.None?;
    RunOne(GROWN, d);
    RunAppend(Init(), first, [d]);
    es := first + [d];
  }

  /** A removed VM's public entry stays in the list. */
  lemma RemovalLeavesEntry() returns (es: seq<Event<int>>)
    ensures ValidRun(Init(), es)
    ensures Run(Init(), es).vms == map[] && Run(Init(), es).infoList == [Info(1, 7)]
  {
    es := [AddVm(1, 0), SingleReport(1, 0, Some(7)), RemoveVm(1)];
    RunThree(Init(), es[0], es[1], es[2]);
    assert [] + [Info(1, 7)] == [Info(1, 7)];
  }

  // ------------------------------------------- a round that hides a stale flag

  const THREE: State<int> :=
    State(map[1 := QUIET, 2 := QUIET, 3 := QUIET], 0, 0, {}, 0, [Info(1, 0), Info(2, 0), Info(3, 0)], [], false, 0)

  /** In the open round the first VM has reported and lost its information, the second one
      has gained some after it had reported none. */
  const SWAPPED: State<int> :=
    State(map[1 := Vm(true, Some(0), None, 0, None), 2 := Vm(false, Some(0), Some(8), 0, Some(8)), 3 := QUIET],
          1, 1, {3}, 0, [Info(1, 0), Info(2, 0), Info(3, 0)], [], false, 0)

  const THREE_ASKED: State<int> := THREE.(requests := 3, awaiting := {1, 2, 3})

  const HELD: State<int> :=
    SWAPPED.(vms := map[1 := Vm(true, Some(0), Some(7), 0, Some(7)), 2 := Vm(false, Some(0), None, 0, None), 3 := QUIET])

  lemma ThreeOrders(vms: map<nat, Vm<int>>)
    requires vms.Keys == {1, 2, 3}
    ensures IsOrder([1, 2, 3], vms)
  {
    assert 1 in [1, 2, 3] && 2 in [1, 2, 3] && 3 in [1, 2, 3];
  }

  lemma ThreeVms() returns (es: seq<Event<int>>)
    ensures ValidRun(Init(), es) && Run(Init(), es) == THREE
  {
    es := [AddVm(1, 0), AddVm(2, 0), AddVm(3, 0)];
    RunThree(Init(), es[0], es[1], es[2]);
  }

  lemma RoundBegins()
    ensures Step(THREE, BeginRound) == THREE_ASKED
  {
    assert THREE.vms.Keys == {1, 2, 3} && |THREE.vms.Keys| == |THREE.vms|;
  }

  lemma TwoReport() returns (es: seq<Event<int>>)
    ensures ValidRun(THREE, es) && Run(THREE, es) == HELD
  {
    RoundBegins();
    ThreeOrders(THREE.vms);
    var b, c := BulkReport(1, 0, Some(7), [1, 2, 3]), BulkReport(2, 0, None, [1, 2, 3]);
    var s := Step(THREE_ASKED, b);
    assert s.awaiting == {2, 3};
    ThreeOrders(s.vms);
    assert Step(s, c).vms == HELD.vms && Step(s, c).awaiting == {3};
    RunThree(THREE, BeginRound, b, c);
    es := [BeginRound, b, c];
  }

  lemma TwoChange()
    ensures Step(Step(HELD, SingleReport(1, 0, None)), SingleReport(2, 0, Some(8))) == SWAPPED
  {
    assert Step(Step(HELD, SingleReport(1, 0, None)), SingleReport(2, 0, Some(8))).vms == SWAPPED.vms;
  }

  function ThirdReport(): Event<int> {
    BulkReport(3, 0, None, [1, 2, 3])
  }

  const COUNTED: State<int> :=
    SWAPPED.(vms := SWAPPED.vms[3 := Vm(false, Some(0), None, 0, None)], requests := 0, awaiting := {})

  lemma ThirdCounts()
    ensures Enabled(SWAPPED, ThirdReport()) && Step(SWAPPED, ThirdReport()) == Publish(COUNTED, [1, 2, 3])
  {
    ThreeOrders(SWAPPED.vms);
    assert LastCount(SWAPPED, ThirdReport()) == COUNTED;
  }

  lemma CountIsRight()
    ensures IsOrder([1, 2, 3], COUNTED.vms) && AllReported(COUNTED.vms) && HoldsLast(COUNTED.vms)
    ensures COUNTED.updates == |InfoIds(COUNTED.vms)|
  {
    assert COUNTED.vms.Keys == {1, 2, 3};
    ThreeOrders(COUNTED.vms);
    assert InfoIds(COUNTED.vms) == {2};
  }

  lemma PublishedByChance()
    ensures var s := Publish(COUNTED, [1, 2, 3]);
            && ListsRight(s) && !s.outOfBounds
            && 1 in s.vms && s.vms[1] == Vm(true, None, None, 0, None)
            && Single(s, 1, 0, None).outOfBounds
  {
    CountIsRight();
    PublishRightIff(COUNTED, [1, 2, 3]);
    StaleFlagSpoils(Publish(COUNTED, [1, 2, 3]), 1, 0, None);
  }

  lemma ChangesAndLastReport() returns (es: seq<Event<int>>)
    ensures ValidRun(HELD, es) && Run(HELD, es) == Publish(COUNTED, [1, 2, 3])
  {
    TwoChange();
    ThirdCounts();
    es := [SingleReport(1, 0, None), SingleReport(2, 0, Some(8)), ThirdReport()];
    RunThree(HELD, SingleReport(1, 0, None), SingleReport(2, 0, Some(8)), ThirdReport());
  }

  lemma SwappedRound() returns (es: seq<Event<int>>)
    ensures ValidRun(Init(), es) && Run(Init(), es) == Publish(COUNTED, [1, 2, 3])
  {
    var first := ThreeVms();
    var second := TwoReport();
    var third := ChangesAndLastReport();
    RunAppend(Init(), first, second);
    RunAppend(Init(), first + second, third);
    es := first + second + third;
  }

  /** The round ends with right lists, the count being right by chance; the next update of
      the first VM then removes an entry that is not there. */
  lemma StaleFlagOutlivesRound() returns (es: seq<Event<int>>, next: Event<int>)
    ensures ValidRun(Init(), es) && ListsRight(Run(Init(), es)) && !Run(Init(), es).outOfBounds
    ensures Enabled(Run(Init(), es), next) && next == SingleReport(1, 0, None)
    ensures Step(Run(Init(), es), next).outOfBounds
  {
    es := SwappedRound();
    next := SingleReport(1, 0, None);
    PublishedByChance();
  }
}
