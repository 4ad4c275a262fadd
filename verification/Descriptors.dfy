/** Who owns which descriptor: `class Socket` as a move-only handle. */
module Descriptors {
  import opened Wrappers

  /** The descriptors the kernel holds open, and how often each number was opened and passed to
      ::close. Numbers are reused, so closing one twice could close someone else's. */
  datatype Kernel = Kernel(open: set<int>, opens: multiset<int>, closes: multiset<int>)

  /** A descriptor, or -1 for none. */
  type Descriptor = d: int | d >= -1 witness -1

  /** A Socket object. Objects are numbered in order of construction. */
  datatype Handle = Handle(live: bool, fd: Descriptor)

  datatype World = World(kernel: Kernel, handles: seq<Handle>)

  /** What a program can do with sockets. Make covers Socket(), create_tcp and accept: the kernel
      yields a descriptor or none. */
  datatype Op =
    | Make(fd: Option<nat>)
    | MoveConstruct(from: nat)
    | MoveAssign(to: nat, from: nat)
    | Close(i: nat)
    | Destroy(i: nat)

  const NOTHING := World(Kernel({}, multiset{}, multiset{}), [])

  function SysOpen(k: Kernel, fd: int): Kernel {
    k.(open := k.open + {fd}, opens := k.opens + multiset{fd})
  }

  /** ::close, which fails on a number that is not open. */
  function SysClose(k: Kernel, fd: int): Kernel {
    k.(open := k.open - {fd}, closes := k.closes + multiset{fd})
  }

  /** Socket::close as the kernel sees it. */
  function Release(k: Kernel, fd: int): Kernel { if fd >= 0 then SysClose(k, fd) else k }

  predicate IsLive(w: World, i: nat) { i < |w.handles| && w.handles[i].live }

  /** One operation; None when C++ would not allow it or the kernel would not answer so. */
  function Step(w: World, op: Op): Option<World> {
    match op
    case Make(None) => Some(w.(handles := w.handles + [Handle(true, -1)]))
    case Make(Some(fd)) =>
      if fd in w.kernel.open then None
      else Some(World(SysOpen(w.kernel, fd), w.handles + [Handle(true, fd)]))
    case MoveConstruct(from) =>
      if !IsLive(w, from) then None
      else Some(w.(handles := w.handles[from := Handle(true, -1)] + [w.handles[from]]))
    case MoveAssign(to, from) =>
      if !IsLive(w, to) || !IsLive(w, from) then None
      else if to == from then Some(w)
      else Some(World(Release(w.kernel, w.handles[to].fd),
                      w.handles[to := w.handles[from]][from := Handle(true, -1)]))
    case Close(i) =>
      if !IsLive(w, i) then None
      else Some(World(Release(w.kernel, w.handles[i].fd), w.handles[i := Handle(true, -1)]))
    case Destroy(i) =>
      if !IsLive(w, i) then None
      else Some(World(Release(w.kernel, w.handles[i].fd), w.handles[i := Handle(false, -1)]))
  }

  function Run(w: World, ops: seq<Op>): Option<World>
    decreases |ops|
  {
    if ops == [] then Some(w)
    else match Step(w, ops[0])
         case None => None
         case Some(w') => Run(w', ops[1..])
  }

  // ---------------------------------------------------------------- one owner each

  predicate Owns(w: World, i: nat, fd: int) { i < |w.handles| && w.handles[i].fd == fd }

  /** No two objects own the same descriptor, and destroyed ones own none. */
  ghost predicate OneOwner(w: World) {
    && (forall i, j, fd | fd >= 0 && Owns(w, i, fd) && Owns(w, j, fd) :: i == j)
    && (forall i, fd | fd >= 0 && Owns(w, i, fd) :: IsLive(w, i))
  }

  /** The open descriptors are those some object owns. */
  ghost predicate AllOwned(w: World) {
    && (forall i, fd | fd >= 0 && Owns(w, i, fd) :: fd in w.kernel.open)
    && (forall fd | fd in w.kernel.open :: fd >= 0 && exists i :: Owns(w, i, fd))
  }

  /** Every opening is matched by exactly one ::close, or still open. */
  predicate Balanced(k: Kernel) { k.opens == k.closes + multiset(k.open) }

  ghost predicate Inv(w: World) { OneOwner(w) && AllOwned(w) && Balanced(w.kernel) }

  lemma OpenBalances(k: Kernel, fd: int)
    requires Balanced(k) && fd !in k.open
    ensures Balanced(SysOpen(k, fd))
  {
    assert multiset(k.open + {fd}) == multiset(k.open) + multiset{fd};
  }

  lemma ReleaseBalances(k: Kernel, fd: int)
    requires Balanced(k) && (fd >= 0 ==> fd in k.open)
    ensures Balanced(Release(k, fd))
  {
    if fd >= 0 { assert multiset(k.open) == multiset(k.open - {fd}) + multiset{fd}; }
  }

  /** The owner of each descriptor after an operation, given its owner before. */
  function Heir(w: World, op: Op, i: nat): nat {
    match op
    case MoveConstruct(from) => if i == from then |w.handles| else i
    case MoveAssign(to, from) => if i == from then to else i
    case _ => i
  }

  /** And the owner before, given the owner after. */
  function Ancestor(w: World, op: Op, j: nat): nat {
    match op
    case MoveConstruct(from) => if j == |w.handles| then from else j
    case MoveAssign(to, from) => if j == to then from else j
    case _ => j
  }

  lemma OwnedBefore(w: World, op: Op, w': World, j: nat, fd: int)
    requires Step(w, op) == Some(w') && fd >= 0 && Owns(w', j, fd)
    ensures (op == Make(Some(fd)) && j == |w.handles|) ||
      (Owns(w, Ancestor(w, op, j), fd) && Heir(w, op, Ancestor(w, op, j)) == j)
    ensures (forall i | fd >= 0 && Owns(w, i, fd) :: IsLive(w, i)) ==> IsLive(w', j)
  {
  }

  /** The descriptor an operation releases, if any: that of its target. */
  function Target(w: World, op: Op): Option<nat> {
    match op
    case Close(i) => Some(i)
    case Destroy(i) => Some(i)
    case MoveAssign(to, from) => if to == from then None else Some(to)
    case _ => None
  }

  lemma OpenAfter(w: World, op: Op, w': World, fd: int)
    requires Step(w, op) == Some(w') && fd >= 0
    ensures fd in w'.kernel.open <==>
      op == Make(Some(fd)) || (fd in w.kernel.open && !(Target(w, op).Some? && Owns(w, Target(w, op).value, fd)))
  {
  }

  lemma StepKeepsOwners(w: World, op: Op, w': World)
    requires Inv(w) && Step(w, op) == Some(w')
    ensures OneOwner(w')
  {
    hide Step;
    forall i, j, fd | fd >= 0 && Owns(w', i, fd) && Owns(w', j, fd) ensures i == j {
      OwnedBefore(w, op, w', i, fd);
      OwnedBefore(w, op, w', j, fd);
      MakeIsNew(w, op, w', fd);
    }
    forall i, fd | fd >= 0 && Owns(w', i, fd) ensures IsLive(w', i) {
      OwnedBefore(w, op, w', i, fd);
    }
  }

  lemma MakeIsNew(w: World, op: Op, w': World, fd: int)
    requires Step(w, op) == Some(w') && AllOwned(w) && fd >= 0
    ensures op == Make(Some(fd)) ==> forall i :: !Owns(w, i, fd)
  {
  }

  lemma StepKeepsOwned(w: World, op: Op, w': World)
    requires Inv(w) && Step(w, op) == Some(w')
    ensures AllOwned(w')
  {
    hide Balanced;
    forall j, fd | fd >= 0 && Owns(w', j, fd) ensures fd in w'.kernel.open {
      OwnedBefore(w, op, w', j, fd);
      OpenAfter(w, op, w', fd);
    }
    forall fd | fd in w'.kernel.open ensures fd >= 0 && exists i :: Owns(w', i, fd) {
      if op.Make? && op.fd == Some(fd) {
        assert Owns(w', |w.handles|, fd);
      } else {
        var i :| Owns(w, i, fd);
        assert Owns(w', Heir(w, op, i), fd);
      }
    }
  }

  lemma StepKeeps(w: World, op: Op, w': World)
    requires Inv(w) && Step(w, op) == Some(w')
    ensures Inv(w')
  {
    StepKeepsOwners(w, op, w');
    StepKeepsOwned(w, op, w');
    hide OneOwner, AllOwned, Balanced;
    match op
    case Make(None) =>
    case Make(Some(fd)) => OpenBalances(w.kernel, fd);
    case MoveConstruct(from) =>
    case MoveAssign(to, from) => OwnedIsOpen(w, to); ReleaseBalances(w.kernel, w.handles[to].fd);
    case Close(i) => OwnedIsOpen(w, i); ReleaseBalances(w.kernel, w.handles[i].fd);
    case Destroy(i) => OwnedIsOpen(w, i); ReleaseBalances(w.kernel, w.handles[i].fd);
  }

  lemma OwnedIsOpen(w: World, i: nat)
    requires AllOwned(w) && i < |w.handles|
    ensures w.handles[i].fd >= 0 ==> w.handles[i].fd in w.kernel.open
  {
    assert Owns(w, i, w.handles[i].fd);
  }

  lemma {:induction false} RunKeeps(w: World, ops: seq<Op>, w': World)
    requires Inv(w) && Run(w, ops) == Some(w')
    ensures Inv(w')
    decreases |ops|
  {
    hide Inv, Step;
    if ops != [] {
      var next := Step(w, ops[0]).value;
      StepKeeps(w, ops[0], next);
      RunKeeps(next, ops[1..], w');
    }
  }

  /** Over any sequence of operations, each open descriptor belongs to exactly one live Socket, and
      every ::close so far was of an open descriptor: as often closed as opened, but for those still
      open. So no descriptor is left open, or closed twice, once every Socket is destroyed. */
  lemma DescriptorsAreOwned(ops: seq<Op>, w: World)
    requires Run(NOTHING, ops) == Some(w)
    ensures forall fd | fd in w.kernel.open :: exists i :: Owns(w, i, fd) && IsLive(w, i)
    ensures forall i, j, fd | fd >= 0 && Owns(w, i, fd) && Owns(w, j, fd) :: i == j && fd in w.kernel.open
    ensures w.kernel.opens == w.kernel.closes + multiset(w.kernel.open)
    ensures (forall i | 0 <= i < |w.handles| :: !w.handles[i].live) ==>
      w.kernel.open == {} && w.kernel.opens == w.kernel.closes
  {
    RunKeeps(NOTHING, ops, w);
    forall fd | fd in w.kernel.open ensures exists i :: Owns(w, i, fd) && IsLive(w, i) {
      var i :| Owns(w, i, fd);
      assert IsLive(w, i);
    }
    if forall i | 0 <= i < |w.handles| :: !w.handles[i].live {
      forall fd ensures fd !in w.kernel.open {
        assert forall i :: !IsLive(w, i);
      }
      assert w.kernel.open == {};
    }
  }

  /** The operation that closes a descriptor is close, destruction or overwriting of its one owner;
      a move out of the owner, or onto itself, never does. */
  lemma OnlyItsOwnerCloses(w: World, op: Op, w': World, fd: int, owner: nat)
    requires Inv(w) && Step(w, op) == Some(w') && fd in w.kernel.open && Owns(w, owner, fd)
    ensures fd !in w'.kernel.open <==>
      op == Close(owner) || op == Destroy(owner) || (op.MoveAssign? && op.to == owner && op.from != owner)
    ensures fd in w'.kernel.open ==> Owns(w', Heir(w, op, owner), fd)
  {
    OpenAfter(w, op, w', fd);
  }

  // ---------------------------------------------------------------- whole histories

  /** The operation leaves the i-th object without a descriptor. */
  predicate Empties(op: Op, i: nat) {
    op == MoveConstruct(i) || op == Close(i) || op == Destroy(i) || (op.MoveAssign? && op.from == i && op.to != i)
  }

  /** Something is moved into the i-th object. */
  predicate Refills(ops: seq<Op>, i: nat) {
    exists k | 0 <= k < |ops| :: ops[k].MoveAssign? && ops[k].to == i && ops[k].from != i
  }

  lemma {:induction false} StaysEmpty(w: World, ops: seq<Op>, w': World, i: nat)
    requires Run(w, ops) == Some(w') && i < |w.handles| && w.handles[i].fd == -1 && !Refills(ops, i)
    ensures i < |w'.handles| && w'.handles[i].fd == -1
    decreases |ops|
  {
    if ops != [] {
      assert !(ops[0].MoveAssign? && ops[0].to == i && ops[0].from != i);
      var next := Step(w, ops[0]).value;
      assert i < |next.handles| && next.handles[i].fd == -1;
      forall k | 0 <= k < |ops[1..]| ensures !(ops[1..][k].MoveAssign? && ops[1..][k].to == i && ops[1..][k].from != i) {
        assert ops[1..][k] == ops[k + 1];
      }
      StaysEmpty(next, ops[1..], w', i);
    }
  }

  /** A Socket that was moved from, closed or destroyed owns no descriptor from then on, whatever is
      done with all the others, until something is moved into it: it never closes one again. */
  lemma MovedFromOwnsNothing(w: World, op: Op, ops: seq<Op>, w': World, i: nat, fd: nat)
    requires Inv(w) && Run(w, [op] + ops) == Some(w') && Empties(op, i) && !Refills(ops, i)
    ensures !Owns(w', i, fd)
    ensures fd in w'.kernel.open && IsLive(w', i) ==>
      fd in Step(w', Close(i)).value.kernel.open && fd in Step(w', Destroy(i)).value.kernel.open
  {
    assert ([op] + ops)[1..] == ops;
    StaysEmpty(Step(w, op).value, ops, w', i);
  }

  /** The object that has inherited the i-th one's descriptor after some operations. */
  function HeirAfter(w: World, ops: seq<Op>, i: nat): nat
    requires Run(w, ops).Some?
    decreases |ops|
  {
    if ops == [] then i else HeirAfter(Step(w, ops[0]).value, ops[1..], Heir(w, ops[0], i))
  }

  lemma OneStepOn(w: World, op: Op, w': World, fd: nat, owner: nat)
    requires Inv(w) && Step(w, op) == Some(w') && Owns(w, owner, fd)
    ensures w'.kernel.closes[fd] >= w.kernel.closes[fd]
    ensures w'.kernel.closes[fd] == w.kernel.closes[fd] ==> Owns(w', Heir(w, op, owner), fd)
  {
    OwnedIsOpen(w, owner);
    OnlyItsOwnerCloses(w, op, w', fd, owner);
  }

  lemma {:induction false} ClosesGrow(w: World, ops: seq<Op>, w': World, fd: nat)
    requires Run(w, ops) == Some(w')
    ensures w'.kernel.closes[fd] >= w.kernel.closes[fd]
    decreases |ops|
  {
    if ops != [] { ClosesGrow(Step(w, ops[0]).value, ops[1..], w', fd); }
  }

  /** Over any run a descriptor that is not closed stays with the heirs of its owner: it changes hands
      by moves alone. */
  lemma {:induction false} DescriptorFollowsItsMoves(w: World, ops: seq<Op>, w': World, fd: nat, owner: nat)
    requires Inv(w) && Run(w, ops) == Some(w') && Owns(w, owner, fd)
    ensures w'.kernel.closes[fd] == w.kernel.closes[fd] ==> Owns(w', HeirAfter(w, ops, owner), fd)
    decreases |ops|
  {
    hide Inv, Step, Owns, Heir;
    if ops != [] {
      var next := Step(w, ops[0]).value;
      OneStepOn(w, ops[0], next, fd, owner);
      ClosesGrow(next, ops[1..], w', fd);
      StepKeeps(w, ops[0], next);
      if Owns(next, Heir(w, ops[0], owner), fd) {
        DescriptorFollowsItsMoves(next, ops[1..], w', fd, Heir(w, ops[0], owner));
      }
    }
  }
}
