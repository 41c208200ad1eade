/** The VM lists as the source writes them: resizable lists filled through an index, and a
    publishing loop over the table of VMs (VirtualMachinesList in CollabVmServer.hpp). */
module VirtualMachinesLists {
  import opened Wrappers
  import opened VmInfo

  /** A list that is rebuilt in a new message at every change. */
  class ResizableList<D> {
    var list: seq<Slot<D>>
    var outOfBounds: bool

    constructor ()
      ensures list == [] && !outOfBounds
    {
      list, outOfBounds := [], false;
    }

    method Add(element: Slot<D>)
      modifies this`list
      ensures list == old(list) + [element]
    {
      list := list + [element];
    }

    /** Copies what does not match into a list that is one shorter. */
    method RemoveFirst(id: nat)
      modifies this
      ensures list == Without(old(list), id)
      ensures outOfBounds == (old(outOfBounds) || |list| + 1 != |old(list)|)
    {
      var copied := [];
      var i := 0;
      while i < |list|
        invariant 0 <= i <= |list| && list == old(list) && outOfBounds == old(outOfBounds)
        invariant copied + Without(list[i..], id) == Without(list, id)
      {
        assert list[i..][1..] == list[i + 1..];
        if !Matches(list[i], id) {
          copied := copied + [list[i]];
        }
        i := i + 1;
      }
      if |copied| + 1 != |list| {
        outOfBounds := true;
      }
      list := copied;
    }

    method UpdateElement(id: nat, data: D)
      modifies this`list
      ensures list == VmInfo.UpdateElement(old(list), id, data)
    {
      var updated := list;
      for i := 0 to |list|
        invariant list == old(list) && |updated| == |list|
        invariant forall j :: 0 <= j < |list| ==>
                    updated[j] == if j < i && Matches(list[j], id) then Info(id, data) else list[j]
      {
        if Matches(list[i], id) {
          updated := updated[i := Info(id, data)];
        }
      }
      list := updated;
    }

    method Reset(capacity: nat)
      modifies this`list
      ensures list == Filled(capacity, [])
    {
      list := seq(capacity, _ => Blank);
    }

    /** One VM's report, if it has one, was written at the index and the index moved on. */
    ghost predicate Receives(id: nat, report: Option<D>, index: nat, next: nat,
                             before: seq<Slot<D>>, badBefore: bool)
      reads this
    {
      if report.Some?
      then && list == SetAt(before, index, Info(id, report.value)) && next == index + 1
           && outOfBounds == (badBefore || index >= |before|)
      else list == before && next == index && outOfBounds == badBefore
    }

    lemma HoldsNext(size: nat, entries: seq<Slot<D>>, more: seq<Slot<D>>, id: nat, report: Option<D>,
                    next: nat, before: seq<Slot<D>>, badBefore: bool, bad: bool)
      requires before == Filled(size, entries) && badBefore == (bad || |entries| > size)
      requires Receives(id, report, |entries|, next, before, badBefore)
      requires more == entries + if report.Some? then [Info(id, report.value)] else []
      ensures Holds(size, more, bad) && next == |more|
    {
      if report.Some? { FilledSnoc(size, entries, Info(id, report.value)); }
    }

    /** A list of the given size, filled from the front with these entries. */
    ghost predicate Holds(size: nat, entries: seq<Slot<D>>, badBefore: bool)
      reads this
    {
      list == Filled(size, entries) && outOfBounds == (badBefore || |entries| > size)
    }

    method Set(index: nat, element: Slot<D>)
      modifies this
      ensures index < |old(list)| ==> list == old(list)[index := element]
      ensures index >= |old(list)| ==> list == old(list)
      ensures outOfBounds == (old(outOfBounds) || index >= |old(list)|)
    {
      if index < |list| {
        list := list[index := element];
      } else {
        outOfBounds := true;
      }
    }
  }

  // ------------------------------------------------------------ filling a list

  /** A write through an index; behind the end of the list it is lost. */
  function SetAt<D>(list: seq<Slot<D>>, index: nat, element: Slot<D>): seq<Slot<D>> {
    if index < |list| then list[index := element] else list
  }

  /** One more entry in a list filled from the front. */
  lemma FilledSnoc<D>(size: nat, entries: seq<Slot<D>>, x: Slot<D>)
    ensures Filled(size, entries + [x]) == SetAt(Filled(size, entries), |entries|, x)
  {
  }

  lemma {:induction false} EntriesSnoc<D>(order: seq<nat>, pending: map<nat, D>, id: nat)
    ensures Entries(order + [id], pending) ==
              Entries(order, pending) + if id in pending then [Info(id, pending[id])] else []
    decreases |order|
  {
    if order == [] {
      assert [id][1..] == [] && [] + [id] == [id];
    } else {
      assert (order + [id])[1..] == order[1..] + [id] && (order + [id])[0] == order[0];
      EntriesSnoc(order[1..], pending, id);
    }
  }

  function HeldInfo<D>(vm: Vm<D>): Option<D> {
    if vm.pendingAdmin.Some? then vm.pendingInfo else None
  }

  /** What the loop has collected after `n` VMs. */
  function Collected<D>(order: seq<nat>, n: nat, pending: map<nat, D>): seq<Slot<D>>
    requires n <= |order|
  {
    Entries(order[..n], pending)
  }

  lemma CollectedNext<D>(order: seq<nat>, n: nat, pending: map<nat, D>, report: Option<D>)
    requires n < |order|
    requires report == if order[n] in pending then Some(pending[order[n]]) else None
    ensures Collected(order, n + 1, pending) ==
              Collected(order, n, pending) + if report.Some? then [Info(order[n], report.value)] else []
  {
    assert order[..n + 1] == order[..n] + [order[n]];
    EntriesSnoc(order[..n], pending, order[n]);
  }

  lemma AllFreed<D>(order: seq<nat>, vms: map<nat, Vm<D>>, freed: map<nat, Vm<D>>)
    requires IsOrder(order, vms) && freed.Keys == vms.Keys
    requires forall i :: 0 <= i < |order| ==> freed[order[i]] == Freed(vms[order[i]])
    ensures freed == FreedAll(vms)
  {
  }

  // -------------------------------------------------------------------- the lists

  /** What the publishing loop starts from: the table, the sizes of the two lists, and
      whether they were written out of bounds before. */
  datatype Start<D> = Start(vms: map<nat, Vm<D>>, adminSize: nat, infoSize: nat, adminBad: bool, infoBad: bool)

  class VirtualMachinesList<D> {
    var adminVirtualMachines: map<nat, Vm<D>>
    var pendingRequests: nat
    var pendingUpdates: nat
    ghost var awaiting: set<nat>
    ghost var orphans: nat
    const adminVmInfoList: ResizableList<D>
    const vmInfoList: ResizableList<D>
    ghost var published: nat

    ghost function State(): State<D>
      reads this, adminVmInfoList, vmInfoList
    {
      VmInfo.State(adminVirtualMachines, pendingRequests, pendingUpdates, awaiting, orphans,
                   adminVmInfoList.list, vmInfoList.list,
                   adminVmInfoList.outOfBounds || vmInfoList.outOfBounds, published)
    }

    ghost predicate Valid()
      reads this, adminVmInfoList, vmInfoList
    {
      adminVmInfoList != vmInfoList && BookInv(State())
    }

    constructor ()
      ensures Valid() && State() == Init() && fresh(adminVmInfoList) && fresh(vmInfoList)
    {
      adminVirtualMachines, pendingRequests, pendingUpdates := map[], 0, 0;
      awaiting, orphans, published := {}, 0, 0;
      adminVmInfoList := new ResizableList<D>();
      vmInfoList := new ResizableList<D>();
    }

    method UpdateVirtualMachineInfoList()
      requires Valid()
      modifies this
      ensures Valid() && State() == Step(old(State()), BeginRound)
    {
      BookStep(State(), BeginRound);
      if pendingRequests != 0 {
        return;
      }
      pendingRequests := |adminVirtualMachines|;
      pendingUpdates := 0;
      awaiting := adminVirtualMachines.Keys;
    }

    /** The report of one VM to the open round; `order` is the order in which the table is
        visited if this is the last one. */
    method OnBulkReport(id: nat, admin: D, info: Option<D>, order: seq<nat>)
      requires Valid() && Enabled(State(), BulkReport(id, admin, info, order))
      modifies this, adminVmInfoList, vmInfoList
      ensures Valid() && State() == Step(old(State()), BulkReport(id, admin, info, order))
    {
      BookStep(State(), BulkReport(id, admin, info, order));
      adminVirtualMachines := adminVirtualMachines[id := Vm(info.Some?, Some(admin), info, admin, info)];
      awaiting := awaiting - {id};
      CountReport(info.Some?, order);
    }

    /** The report of a VM that was removed meanwhile: its object is not in the table. */
    method OnOrphanReport(hasInfo: bool, order: seq<nat>)
      requires Valid() && Enabled(State(), OrphanReport(hasInfo, order))
      modifies this, adminVmInfoList, vmInfoList
      ensures Valid() && State() == Step(old(State()), OrphanReport(hasInfo, order))
    {
      BookStep(State(), OrphanReport(hasInfo, order));
      orphans := orphans - 1;
      CountReport(hasInfo, order);
    }

    method CountReport(hasInfo: bool, order: seq<nat>)
      requires adminVmInfoList != vmInfoList && pendingRequests > 0 && IsOrder(order, adminVirtualMachines)
      modifies this, adminVmInfoList, vmInfoList
      ensures State() == Count(old(State()), hasInfo, order)
    {
      if hasInfo {
        pendingUpdates := pendingUpdates + 1;
      }
      pendingRequests := pendingRequests - 1;
      if pendingRequests != 0 {
        return;
      }
      PublishLists(order);
    }

    /** Copies one VM's report into the lists, if it has one, and frees it. */
    method PublishVm(id: nat, adminIndex: nat, infoIndex: nat) returns (adminNext: nat, infoNext: nat)
      requires adminVmInfoList != vmInfoList && id in adminVirtualMachines
      modifies this`adminVirtualMachines, adminVmInfoList, vmInfoList
      ensures adminVirtualMachines == old(adminVirtualMachines)[id := Freed(old(adminVirtualMachines)[id])]
      ensures adminVmInfoList.Receives(id, old(adminVirtualMachines)[id].pendingAdmin, adminIndex, adminNext,
                                       old(adminVmInfoList.list), old(adminVmInfoList.outOfBounds))
      ensures vmInfoList.Receives(id, HeldInfo(old(adminVirtualMachines)[id]), infoIndex, infoNext,
                                  old(vmInfoList.list), old(vmInfoList.outOfBounds))
    {
      adminNext, infoNext := adminIndex, infoIndex;
      var vm := adminVirtualMachines[id];
      if vm.pendingAdmin.None? {
        assert adminVirtualMachines == adminVirtualMachines[id := vm];
        return;
      }
      adminVmInfoList.Set(adminNext, Info(id, vm.pendingAdmin.value));
      adminNext := adminNext + 1;
      if vm.pendingInfo.Some? {
        vmInfoList.Set(infoNext, Info(id, vm.pendingInfo.value));
        infoNext := infoNext + 1;
      }
      adminVirtualMachines := adminVirtualMachines[id := vm.(pendingAdmin := None, pendingInfo := None)];
    }

    /** The first `n` VMs of the table are published and freed, the others as they were. */
    ghost predicate PublishedUpTo(order: seq<nat>, n: nat, adminIndex: nat, infoIndex: nat, start: Start<D>)
      reads this, adminVmInfoList, vmInfoList
    {
      && n <= |order| && IsOrder(order, start.vms) && adminVirtualMachines.Keys == start.vms.Keys
      && (forall i :: 0 <= i < |order| ==>
            adminVirtualMachines[order[i]] == if i < n then Freed(start.vms[order[i]]) else start.vms[order[i]])
      && adminIndex == |Collected(order, n, AdminPending(start.vms))|
      && adminVmInfoList.Holds(start.adminSize, Collected(order, n, AdminPending(start.vms)), start.adminBad)
      && infoIndex == |Collected(order, n, InfoPending(start.vms))|
      && vmInfoList.Holds(start.infoSize, Collected(order, n, InfoPending(start.vms)), start.infoBad)
    }

    method PublishNext(order: seq<nat>, n: nat, adminIndex: nat, infoIndex: nat, ghost start: Start<D>)
      returns (adminNext: nat, infoNext: nat)
      requires adminVmInfoList != vmInfoList && n < |order| && PublishedUpTo(order, n, adminIndex, infoIndex, start)
      modifies this`adminVirtualMachines, adminVmInfoList, vmInfoList
      ensures PublishedUpTo(order, n + 1, adminNext, infoNext, start)
    {
      ghost var vm := start.vms[order[n]];
      ghost var admin, info := AdminPending(start.vms), InfoPending(start.vms);
      CollectedNext(order, n, admin, vm.pendingAdmin);
      CollectedNext(order, n, info, HeldInfo(vm));
      adminNext, infoNext := PublishVm(order[n], adminIndex, infoIndex);
      adminVmInfoList.HoldsNext(start.adminSize, Collected(order, n, admin), Collected(order, n + 1, admin), order[n],
                                vm.pendingAdmin, adminNext, old(adminVmInfoList.list),
                                old(adminVmInfoList.outOfBounds), start.adminBad);
      vmInfoList.HoldsNext(start.infoSize, Collected(order, n, info), Collected(order, n + 1, info), order[n],
                           HeldInfo(vm), infoNext, old(vmInfoList.list),
                           old(vmInfoList.outOfBounds), start.infoBad);
    }

    /** The loop over the table, with both lists already reset. */
    method PublishVms(order: seq<nat>, ghost start: Start<D>)
      requires adminVmInfoList != vmInfoList && adminVirtualMachines == start.vms
      requires PublishedUpTo(order, 0, 0, 0, start)
      modifies this`adminVirtualMachines, adminVmInfoList, vmInfoList
      ensures adminVirtualMachines == FreedAll(start.vms)
      ensures adminVmInfoList.Holds(start.adminSize, Entries(order, AdminPending(start.vms)), start.adminBad)
      ensures vmInfoList.Holds(start.infoSize, Entries(order, InfoPending(start.vms)), start.infoBad)
    {
      var adminIndex, infoIndex := 0, 0;
      for n := 0 to |order|
        invariant PublishedUpTo(order, n, adminIndex, infoIndex, start)
      {
        adminIndex, infoIndex := PublishNext(order, n, adminIndex, infoIndex, start);
      }
      assert order[..|order|] == order;
      AllFreed(order, start.vms, adminVirtualMachines);
    }

    method PublishLists(order: seq<nat>)
      requires adminVmInfoList != vmInfoList && IsOrder(order, adminVirtualMachines)
      modifies this`adminVirtualMachines, this`published, adminVmInfoList, vmInfoList
      ensures State() == Publish(old(State()), order)
    {
      adminVmInfoList.Reset(|adminVirtualMachines|);
      vmInfoList.Reset(pendingUpdates);
      PublishVms(order, Start(adminVirtualMachines, |adminVirtualMachines|, pendingUpdates,
                              adminVmInfoList.outOfBounds, vmInfoList.outOfBounds));
      published := published + 1;
    }

    method OnSingleReport(id: nat, admin: D, info: Option<D>)
      requires Valid() && id in adminVirtualMachines
      modifies this`adminVirtualMachines, adminVmInfoList, vmInfoList
      ensures Valid() && State() == Step(old(State()), SingleReport(id, admin, info))
    {
      BookStep(State(), SingleReport(id, admin, info));
      var vm := adminVirtualMachines[id].(admin := admin, info := info);
      if vm.pendingAdmin.Some? {
        adminVirtualMachines :=
          adminVirtualMachines[id := vm.(pendingAdmin := Some(admin), pendingInfo := info)];
        return;
      }
      adminVmInfoList.UpdateElement(id, admin);
      if vm.hasInfo {
        if info.None? {
          vmInfoList.RemoveFirst(id);
        } else {
          vmInfoList.UpdateElement(id, info.value);
        }
      } else if info.Some? {
        vmInfoList.Add(Info(id, info.value));
      }
      adminVirtualMachines := adminVirtualMachines[id := vm.(hasInfo := info.Some?)];
    }

    method AddAdminVirtualMachine(id: nat, admin: D)
      requires Valid() && id !in adminVirtualMachines
      modifies this`adminVirtualMachines, adminVmInfoList
      ensures Valid() && State() == Step(old(State()), AddVm(id, admin))
    {
      BookStep(State(), AddVm(id, admin));
      adminVmInfoList.Add(Info(id, admin));
      adminVirtualMachines := adminVirtualMachines[id := Vm(false, None, None, admin, None)];
    }

    method RemoveAdminVirtualMachine(id: nat) returns (removed: bool)
      requires Valid()
      modifies this`adminVirtualMachines, this`awaiting, this`orphans, adminVmInfoList
      ensures Valid() && (removed <==> id in old(adminVirtualMachines))
      ensures State() == if removed then Step(old(State()), RemoveVm(id)) else old(State())
    {
      if id !in adminVirtualMachines {
        return false;
      }
      BookStep(State(), RemoveVm(id));
      adminVirtualMachines := adminVirtualMachines - {id};
      if id in awaiting {
        orphans := orphans + 1;
      }
      awaiting := awaiting - {id};
      adminVmInfoList.RemoveFirst(id);
      return true;
    }
  }
}
