/**
 Guarded edits of a stack frame (plugin/tools/stack.py).

 A frame is the list of its members; offsets and sizes are in bits, as the type library has them,
 and the tools divide them by eight.
 */
module FrameEdits {
  import opened Prelude

  datatype Member = Member(name: string, offset: nat, size: nat, special: bool)

  datatype FrameError = NoFrame | NotFound(name: string) | SpecialMember | ArgumentMember | OperationFailed

  function StartByte(m: Member): nat {
    m.offset / 8
  }

  function EndByte(m: Member): nat {
    m.offset / 8 + m.size / 8
  }

  // ----- where the arguments begin -----

  function Boundary(members: seq<Member>): nat {
    if |members| == 0 then 0
    else
      var last := members[|members| - 1];
      var before := Boundary(members[..|members| - 1]);
      if last.special && EndByte(last) > before then EndByte(last) else before
  }

  /** The boundary is the greatest end of a special member, and zero without one. */
  lemma {:induction false} BoundaryIsGreatest(members: seq<Member>)
    ensures forall m :: m in members && m.special ==> EndByte(m) <= Boundary(members)
    ensures Boundary(members) == 0 || exists m :: m in members && m.special && EndByte(m) == Boundary(members)
  {
    if |members| > 0 {
      var init, last := members[..|members| - 1], members[|members| - 1];
      BoundaryIsGreatest(init);
      assert members == init + [last];
      if !(last.special && EndByte(last) > Boundary(init)) && Boundary(init) != 0 {
        var m :| m in init && m.special && EndByte(m) == Boundary(init);
        assert m in members;
      }
    }
  }

  /** And no other number is. */
  lemma GreatestIsBoundary(members: seq<Member>, top: Member)
    requires top in members && top.special
    requires forall m :: m in members && m.special ==> EndByte(m) <= EndByte(top)
    ensures Boundary(members) == EndByte(top)
  {
    BoundaryIsGreatest(members);
  }

  method ArgsRegionStart(members: seq<Member>) returns (boundary: nat)
    ensures boundary == Boundary(members)
  {
    boundary := 0;
    for i := 0 to |members|
      invariant boundary == Boundary(members[..i])
    {
      assert members[..i + 1][..i] == members[..i];
      if !members[i].special {
        continue;
      }
      var end := members[i].offset / 8 + members[i].size / 8;
      if end > boundary {
        boundary := end;
      }
    }
    assert members[..|members|] == members;
  }

  // ----- which members may change -----

  /** The first member of that name. */
  ghost predicate IsFirst(members: seq<Member>, name: string, i: int) {
    && 0 <= i < |members| && members[i].name == name
    && forall j :: 0 <= j < i ==> members[j].name != name
  }

  method ResolveFrameMember(members: seq<Member>, name: string) returns (r: Result<nat, FrameError>)
    ensures r.Ok? ==> IsFirst(members, name, r.value)
    ensures r.Err? ==> r.error == NotFound(name) && forall m :: m in members ==> m.name != name
  {
    for i := 0 to |members|
      invariant forall j :: 0 <= j < i ==> members[j].name != name
    {
      if members[i].name != name {
        continue;
      }
      return Ok(i);
    }
    return Err(NotFound(name));
  }

  /** `_check_mutable`: the argument check is skipped when no boundary could be found. */
  function Refusal(members: seq<Member>, m: Member): Option<FrameError> {
    if m.special then Some(SpecialMember)
    else if Boundary(members) != 0 && StartByte(m) >= Boundary(members) then Some(ArgumentMember)
    else None
  }

  predicate Meets(a: Member, start: nat, end: nat) {
    StartByte(a) < end && start < EndByte(a)
  }

  /** Members are pairwise disjoint, byte-aligned and not empty. */
  ghost predicate Laid(members: seq<Member>) {
    && (forall i :: 0 <= i < |members| ==> Aligned(members[i]))
    && (forall i, j :: 0 <= i < j < |members| ==> Disjoint(members[i], members[j]))
  }

  predicate Aligned(m: Member) {
    m.offset % 8 == 0 && m.size % 8 == 0 && m.size > 0
  }

  predicate Disjoint(a: Member, b: Member) {
    a.offset + a.size <= b.offset || b.offset + b.size <= a.offset
  }

  lemma DisjointBytes(a: Member, b: Member)
    requires Aligned(a) && Aligned(b)
    ensures Disjoint(a, b) <==> !Meets(b, StartByte(a), EndByte(a))
  {}

  ghost predicate HasSpecial(members: seq<Member>) {
    exists m :: m in members && m.special
  }

  predicate Protected(m: Member, boundary: nat) {
    m.special || StartByte(m) >= boundary
  }

  /**
   A member may be changed exactly when it is not special and ends before some special member
   begins, so that no byte of it is special and none lies among the arguments.
   */
  lemma MutableIsBelowSpecial(members: seq<Member>, i: nat)
    requires Laid(members) && HasSpecial(members) && i < |members|
    ensures Refusal(members, members[i]).None? <==>
              !members[i].special && exists s :: s in members && s.special && EndByte(members[i]) <= StartByte(s)
    ensures Refusal(members, members[i]).None? <==> !Protected(members[i], Boundary(members))
    ensures Refusal(members, members[i]).None? ==>
              forall m :: m in members && Protected(m, Boundary(members)) ==>
                !Meets(m, StartByte(members[i]), EndByte(members[i]))
  {
    BoundaryIsGreatest(members);
    BoundaryIsPositive(members);
    var m := members[i];
    var top :| top in members && top.special && EndByte(top) == Boundary(members);
    if Refusal(members, m).None? {
      Apart(members, i, top);
      DisjointBytes(m, top);
      forall p | p in members && Protected(p, Boundary(members))
        ensures !Meets(p, StartByte(m), EndByte(m))
      {
        Apart(members, i, p);
        DisjointBytes(m, p);
      }
    }
  }

  lemma BoundaryIsPositive(members: seq<Member>)
    requires Laid(members) && HasSpecial(members)
    ensures Boundary(members) > 0
  {
    BoundaryIsGreatest(members);
    var s :| s in members && s.special;
    assert EndByte(s) > 0;
  }

  lemma Apart(members: seq<Member>, i: nat, other: Member)
    requires Laid(members) && i < |members| && other in members && other != members[i]
    ensures Disjoint(members[i], other)
  {
    var j :| 0 <= j < |members| && members[j] == other;
    assert i < j ==> Disjoint(members[i], members[j]);
    assert j < i ==> Disjoint(members[j], members[i]);
  }

  /** The reason given: special members first, and arguments by where they begin. */
  lemma RefusalReasons(members: seq<Member>, m: Member)
    ensures m.special ==> Refusal(members, m) == Some(SpecialMember)
    ensures !m.special && Boundary(members) > 0 && m.offset / 8 >= Boundary(members) ==>
              Refusal(members, m) == Some(ArgumentMember)
  {}

  /** Without a special member nothing is protected. */
  lemma WithoutSpecialAllMutable(members: seq<Member>, m: Member)
    requires !HasSpecial(members) && m in members
    ensures Refusal(members, m).None?
  {
    BoundaryIsGreatest(members);
  }

  // ----- deleting -----

  /** What `delete_frame_members` leaves: the members that do not meet the range. */
  function Outside(members: seq<Member>, start: nat, end: nat): seq<Member> {
    if |members| == 0 then []
    else
      var init := Outside(members[..|members| - 1], start, end);
      if Meets(members[|members| - 1], start, end) then init else init + [members[|members| - 1]]
  }

  function Without(members: seq<Member>, i: nat): seq<Member>
    requires i < |members|
  {
    members[..i] + members[i + 1..]
  }

  lemma {:induction false} OutsideAll(members: seq<Member>, start: nat, end: nat)
    requires forall m :: m in members ==> !Meets(m, start, end)
    ensures Outside(members, start, end) == members
  {
    if |members| > 0 {
      OutsideAll(members[..|members| - 1], start, end);
      assert !Meets(members[|members| - 1], start, end);
    }
  }

  lemma OthersMiss(members: seq<Member>, m: Member)
    requires Laid(members) && |members| > 0 && members[|members| - 1] == m
    ensures forall other :: other in members[..|members| - 1] ==> !Meets(other, StartByte(m), EndByte(m))
  {
    forall other | other in members[..|members| - 1]
      ensures !Meets(other, StartByte(m), EndByte(m))
    {
      var j :| 0 <= j < |members| - 1 && members[j] == other;
      assert Disjoint(members[j], members[|members| - 1]);
      DisjointBytes(m, other);
    }
  }

  /** Deleting the range of one member deletes that member alone. */
  lemma {:induction false} RangeIsOneMember(members: seq<Member>, i: nat, m: Member)
    requires Laid(members) && i < |members| && members[i] == m
    ensures Outside(members, StartByte(m), EndByte(m)) == Without(members, i)
  {
    var init := members[..|members| - 1];
    if i == |init| {
      OthersMiss(members, m);
      OutsideAll(init, StartByte(m), EndByte(m));
      MeetsItself(m);
      assert Without(members, i) == init;
    } else {
      LastMisses(members, i);
      RangeIsOneMember(init, i, m);
      assert Without(members, i) == Without(init, i) + [members[|init|]];
    }
  }

  lemma MeetsItself(m: Member)
    requires Aligned(m)
    ensures Meets(m, StartByte(m), EndByte(m))
  {}

  lemma LastMisses(members: seq<Member>, i: nat)
    requires Laid(members) && i < |members| - 1
    ensures Laid(members[..|members| - 1])
    ensures !Meets(members[|members| - 1], StartByte(members[i]), EndByte(members[i]))
  {
    assert Disjoint(members[i], members[|members| - 1]);
    DisjointBytes(members[i], members[|members| - 1]);
  }

  // ----- runs of deletions -----

  /** One deletion by name, as far as the frame is concerned; refusals and misses change nothing. */
  ghost function AfterDelete(members: seq<Member>, name: string): seq<Member> {
    if i :| IsFirst(members, name, i) then
      if Refusal(members, members[i]).None? then Outside(members, StartByte(members[i]), EndByte(members[i]))
      else members
    else members
  }

  ghost function AfterDeletes(members: seq<Member>, names: seq<string>): seq<Member>
    decreases |names|
  {
    if |names| == 0 then members else AfterDeletes(AfterDelete(members, names[0]), names[1..])
  }

  /** The special members and the arguments, in order. */
  function Kept(members: seq<Member>, boundary: nat): seq<Member> {
    if |members| == 0 then []
    else
      var init := Kept(members[..|members| - 1], boundary);
      if Protected(members[|members| - 1], boundary) then init + [members[|members| - 1]] else init
  }

  lemma {:induction false} KeptWithout(members: seq<Member>, i: nat, boundary: nat)
    requires i < |members| && !Protected(members[i], boundary)
    ensures Kept(Without(members, i), boundary) == Kept(members, boundary)
  {
    var init, last := members[..|members| - 1], members[|members| - 1];
    if i == |init| {
      assert Without(members, i) == init;
    } else {
      KeptWithout(init, i, boundary);
      assert Without(members, i)[..|init| - 1] == Without(init, i);
    }
  }

  lemma {:induction false} BoundaryWithout(members: seq<Member>, i: nat)
    requires i < |members| && !members[i].special
    ensures Boundary(Without(members, i)) == Boundary(members)
  {
    var init := members[..|members| - 1];
    if i == |init| {
      assert Without(members, i) == init;
    } else {
      BoundaryWithout(init, i);
      assert Without(members, i)[..|init| - 1] == Without(init, i);
    }
  }

  lemma DeleteKeeps(members: seq<Member>, i: nat)
    requires Laid(members) && HasSpecial(members) && i < |members|
    requires Refusal(members, members[i]).None?
    ensures var after := Outside(members, StartByte(members[i]), EndByte(members[i]));
      && after == Without(members, i)
      && Laid(after) && HasSpecial(after)
      && Boundary(after) == Boundary(members)
      && Kept(after, Boundary(members)) == Kept(members, Boundary(members))
  {
    RangeIsOneMember(members, i, members[i]);
    MutableIsBelowSpecial(members, i);
    KeptWithout(members, i, Boundary(members));
    BoundaryWithout(members, i);
    StaysLaid(members, i);
  }

  lemma StaysLaid(members: seq<Member>, i: nat)
    requires Laid(members) && HasSpecial(members) && i < |members| && !members[i].special
    ensures Laid(Without(members, i)) && HasSpecial(Without(members, i))
  {
    var s :| s in members && s.special;
    var k :| 0 <= k < |members| && members[k] == s;
    assert Without(members, i)[if k < i then k else k - 1] == s;
  }

  /** No sequence of deletions, whatever the names, touches a special member or an argument. */
  lemma {:induction false} DeletionsKeepProtected(members: seq<Member>, names: seq<string>)
    requires Laid(members) && HasSpecial(members)
    ensures Laid(AfterDeletes(members, names))
    ensures Boundary(AfterDeletes(members, names)) == Boundary(members)
    ensures Kept(AfterDeletes(members, names), Boundary(members)) == Kept(members, Boundary(members))
    decreases |names|
  {
    if |names| > 0 {
      if i :| IsFirst(members, names[0], i) && Refusal(members, members[i]).None? {
        DeleteKeeps(members, i);
        DeletionIsOfFirst(members, names[0], i);
      }
      DeletionsKeepProtected(AfterDelete(members, names[0]), names[1..]);
    }
  }

  lemma DeletionIsOfFirst(members: seq<Member>, name: string, i: nat)
    requires IsFirst(members, name, i)
    ensures AfterDelete(members, name) ==
            if Refusal(members, members[i]).None? then Outside(members, StartByte(members[i]), EndByte(members[i]))
            else members
  {}

  class Frame {
    /** `None` is a function without a frame. */
    var members: Option<seq<Member>>

    constructor (members: Option<seq<Member>>)
      ensures this.members == members
    {
      this.members := members;
    }

    /** `deletes` is whether the SDK call goes through; when it does not, the frame is as it was. */
    method DeleteVariable(name: string, deletes: bool) returns (r: Result<(), FrameError>)
      modifies this
      ensures old(members).None? ==> r == Err(NoFrame) && members == old(members)
      ensures old(members).Some? ==> members.Some? && var was := old(members.value);
        if m :| m in was && m.name == name then
          exists i :: IsFirst(was, name, i) && DeleteOutcome(was, i, deletes, r, members.value)
        else r == Err(NotFound(name)) && members.value == was
      ensures old(members).Some? && r.Ok? ==> members.value == AfterDelete(old(members.value), name)
    {
      if members.None? {
        return Err(NoFrame);
      }
      var found := ResolveFrameMember(members.value, name);
      if found.Err? {
        return Err(found.error);
      }
      var member := members.value[found.value];
      if member.special {
        return Err(SpecialMember);
      }
      var argsStart := ArgsRegionStart(members.value);
      if argsStart != 0 && member.offset / 8 >= argsStart {
        return Err(ArgumentMember);
      }
      var end := member.offset / 8 + member.size / 8;
      if !deletes {
        return Err(OperationFailed);
      }
      DeletionIsOfFirst(members.value, name, found.value);
      members := Some(Outside(members.value, member.offset / 8, end));
      return Ok(());
    }
  }

  /** What one deletion of the `i`-th member answers and leaves. */
  ghost predicate DeleteOutcome(was: seq<Member>, i: nat, deletes: bool, r: Result<(), FrameError>, now: seq<Member>)
    requires i < |was|
  {
    if Refusal(was, was[i]).Some? then r == Err(Refusal(was, was[i]).value) && now == was
    else if !deletes then r == Err(OperationFailed) && now == was
    else r == Ok(()) && now == Outside(was, StartByte(was[i]), EndByte(was[i]))
  }
}
