/** A client that disconnects leaves every workload it takes part in: LeaveProxyResources of
    pkg/handler/reset.go, which finds its way back from a node id to a workload. */
module LeaveAll {
  import opened Lists
  import opened Text
  import opened MeshRules

  /** A workload: its resource with group, as in deployments.apps, and its name. */
  datatype Ref = Ref(resource: string, name: string)

  /** The node id under which a workload's rules are filed. */
  function NodeId(r: Ref): string {
    r.resource + "." + r.name
  }

  /** The node id read back: cut at the last dot. */
  function Parse(uid: string): Option<Ref> {
    if uid == "" then None
    else if uid[|uid| - 1] == '.' then Some(Ref(uid[..|uid| - 1], ""))
    else
      var r := Parse(uid[..|uid| - 1]);
      if r.None? then None else Some(r.value.(name := r.value.name + [uid[|uid| - 1]]))
  }

  lemma {:induction false} ParseSound(uid: string)
    ensures Parse(uid).Some? <==> '.' in uid
    ensures Parse(uid).Some? ==> NodeId(Parse(uid).value) == uid && '.' !in Parse(uid).value.name
  {
    if uid != "" {
      assert uid == uid[..|uid| - 1] + [uid[|uid| - 1]];
      ParseSound(uid[..|uid| - 1]);
    }
  }

  /** A workload is found again from its node id exactly when its name has no dot. */
  lemma ParsesBackIff(r: Ref)
    ensures Parse(NodeId(r)) == Some(r) <==> '.' !in r.name
  {
    var uid := NodeId(r);
    ParseSound(uid);
    assert uid[|r.resource|] == '.';
    if '.' !in r.name {
      var p := Parse(uid).value;
      SplitAtLast(p.resource, p.name, r.resource, r.name, '.');
    }
  }

  /** strings.LastIndex for a dot; -1 when there is none. */
  method LastDot(s: string) returns (i: int)
    ensures -1 <= i < |s|
    ensures i < 0 <==> '.' !in s
    ensures i >= 0 ==> Parse(s) == Some(Ref(s[..i], s[i + 1..]))
  {
    i := |s| - 1;
    while i >= 0 && s[i] != '.'
      invariant -1 <= i < |s|
      invariant '.' !in s[i + 1..]
    {
      i := i - 1;
    }
    if i >= 0 {
      CutAtLastDot(s, i);
    }
  }

  lemma CutAtLastDot(s: string, i: nat)
    requires i < |s| && s[i] == '.' && '.' !in s[i + 1..]
    ensures Parse(s) == Some(Ref(s[..i], s[i + 1..]))
  {
    var r := Ref(s[..i], s[i + 1..]);
    assert NodeId(r) == s;
    ParsesBackIff(r);
  }

  /** The call for this node id removes the client's rules: reach holds the workloads that are found and
      whose rule update goes through. The workload itself is patched only after that. */
  predicate Leaves(uid: string, reach: set<Ref>) {
    Parse(uid).Some? && Parse(uid).value in reach
  }

  function LeftEntry(x: Virtual, v4: string, reach: set<Ref>): seq<Virtual> {
    if !Leaves(x.uid, reach) then [x]
    else
      var rules := Filter(x.rules, NotFrom(v4));
      if rules == [] then [] else [x.(rules := rules)]
  }

  /** Every reachable entry without the client's rules, and gone when nothing is left of it. */
  function LeftAll(v: seq<Virtual>, v4: string, reach: set<Ref>): seq<Virtual> {
    if v == [] then [] else LeftAll(v[..|v| - 1], v4, reach) + LeftEntry(v[|v| - 1], v4, reach)
  }

  /** The first k turns of the loop: it runs over the list as first read, and each call edits the
      list as it is by then. */
  function Turns(v: seq<Virtual>, k: nat, v4: string, reach: set<Ref>): seq<Virtual>
    requires k <= |v|
  {
    if k == 0 then v
    else
      var now := Turns(v, k - 1, v4, reach);
      if Leaves(v[k - 1].uid, reach) then RemoveRule(now, v[k - 1].uid, v4) else now
  }

  /** The call of turn k reports an error: it did not get as far as the rules, or it emptied the node's
      entry and then could not patch the workload. */
  ghost predicate TurnFails(v: seq<Virtual>, k: nat, v4: string, reach: set<Ref>, patchable: set<Ref>)
    requires k < |v|
  {
    !Leaves(v[k].uid, reach) ||
    (DropsEntry(Turns(v, k, v4, reach), v[k].uid, v4) && Parse(v[k].uid).value !in patchable)
  }

  /** LeaveProxyResources. A node id without a dot ends it with a slice out of range. Every turn
      overwrites the error of the one before, so it returns the last one's. */
  method LeaveProxyResources(v: seq<Virtual>, v4: string, reach: set<Ref>, patchable: set<Ref>)
    returns (r: seq<Virtual>, failed: bool, panicked: bool)
    ensures panicked <==> exists x | x in v :: '.' !in x.uid
    ensures !panicked ==> r == Turns(v, |v|, v4, reach)
    ensures !panicked ==> (failed <==> v != [] && TurnFails(v, |v| - 1, v4, reach, patchable))
    ensures panicked ==> exists k | 0 <= k < |v| :: '.' !in v[k].uid && r == Turns(v, k, v4, reach)
  {
    r, failed := v, false;
    var i := 0;
    while i < |v|
      invariant 0 <= i <= |v|
      invariant r == Turns(v, i, v4, reach)
      invariant failed <==> i > 0 && TurnFails(v, i - 1, v4, reach, patchable)
      invariant forall j | 0 <= j < i :: '.' in v[j].uid
    {
      r, failed, panicked := LeaveOne(r, v[i].uid, v4, reach, patchable);
      if panicked {
        assert v[i] in v && '.' !in v[i].uid && r == Turns(v, i, v4, reach);
        return;
      }
      i := i + 1;
      assert r == Turns(v, i, v4, reach);
    }
    return r, failed, false;
  }

  /** The body of the loop, for one entry. */
  method LeaveOne(now: seq<Virtual>, uid: string, v4: string, reach: set<Ref>, patchable: set<Ref>)
    returns (r: seq<Virtual>, failed: bool, panicked: bool)
    ensures panicked <==> '.' !in uid
    ensures panicked ==> r == now
    ensures r == if Leaves(uid, reach) then RemoveRule(now, uid, v4) else now
    ensures !panicked ==>
              (failed <==> !Leaves(uid, reach) || (DropsEntry(now, uid, v4) && Parse(uid).value !in patchable))
  {
    r, failed := now, false;
    var at := LastDot(uid);
    ParseSound(uid);
    panicked := at < 0;
    if panicked {
      return;
    }
    var workload := Ref(uid[..at], uid[at + 1..]);
    failed := workload !in reach;
    if !failed {
      var empty;
      r, empty := RemoveEnvoyConfig(now, NodeId(workload), v4);
      failed := empty && workload !in patchable;
    }
  }

  lemma {:induction false} LeftAllUids(v: seq<Virtual>, v4: string, reach: set<Ref>)
    ensures forall x | x in LeftAll(v, v4, reach) :: Mentions(v, x.uid)
  {
    if v != [] {
      LeftAllUids(v[..|v| - 1], v4, reach);
      assert v[|v| - 1] in v;
      assert forall y | y in v[..|v| - 1] :: y in v;
    }
  }

  lemma MiddleApart(done: seq<Virtual>, x: Virtual, rest: seq<Virtual>)
    requires forall y | y in done :: y.uid != x.uid
    requires forall y | y in rest :: y.uid != x.uid
    ensures var now, n := done + [x] + rest, |done|;
            && now[n] == x && now[..n] + now[n + 1..] == done + [] + rest
            && forall j | 0 <= j < |now| && j != n :: now[j].uid != x.uid
  {
    var now, n := done + [x] + rest, |done|;
    assert now[..n] == done && now[n + 1..] == rest && done + [] == done;
    forall j | 0 <= j < |now| && j != n
      ensures now[j].uid != x.uid
    {
      assert now[j] in if j < n then done else rest;
    }
  }

  lemma RemoveInMiddle(done: seq<Virtual>, x: Virtual, rest: seq<Virtual>, v4: string)
    requires forall y | y in done :: y.uid != x.uid
    requires forall y | y in rest :: y.uid != x.uid
    ensures var rules := Filter(x.rules, NotFrom(v4));
            RemoveRule(done + [x] + rest, x.uid, v4) ==
            done + (if rules == [] then [] else [x.(rules := rules)]) + rest
  {
    var now, n := done + [x] + rest, |done|;
    var x2 := x.(rules := Filter(x.rules, NotFrom(v4)));
    MiddleApart(done, x, rest);
    StripOne(now, x.uid, v4, n);
    assert KeepOthers(now[n], x.uid, v4) == x2;
    ReplaceMiddle(done, x, rest, x2);
  }

  lemma ReplaceMiddle(done: seq<Virtual>, x: Virtual, rest: seq<Virtual>, x2: Virtual)
    ensures (done + [x] + rest)[|done| := x2] == done + [x2] + rest
  {
  }

  lemma UidsApart(v: seq<Virtual>, i: nat)
    requires UidsDistinct(v) && i < |v|
    ensures !Mentions(v[..i], v[i].uid)
    ensures forall y | y in v[i + 1..] :: y.uid != v[i].uid
  {
  }

  lemma LeftAllSnoc(v: seq<Virtual>, i: nat, v4: string, reach: set<Ref>)
    requires i < |v|
    ensures LeftAll(v[..i + 1], v4, reach) == LeftAll(v[..i], v4, reach) + LeftEntry(v[i], v4, reach)
  {
    assert v[..i + 1][..i] == v[..i];
  }

  /** One turn of the loop. */
  lemma OneTurn(v: seq<Virtual>, i: nat, v4: string, reach: set<Ref>)
    requires UidsDistinct(v) && i < |v|
    ensures var now := LeftAll(v[..i], v4, reach) + [v[i]] + v[i + 1..];
            LeftAll(v[..i + 1], v4, reach) + v[i + 1..] ==
            if Leaves(v[i].uid, reach) then RemoveRule(now, v[i].uid, v4) else now
  {
    LeftAllSnoc(v, i, v4, reach);
    if Leaves(v[i].uid, reach) {
      LeftAllUids(v[..i], v4, reach);
      UidsApart(v, i);
      RemoveInMiddle(LeftAll(v[..i], v4, reach), v[i], v[i + 1..], v4);
    }
  }

  lemma NextTurn(v: seq<Virtual>, k: nat, v4: string, reach: set<Ref>)
    requires UidsDistinct(v) && k < |v| && Turns(v, k, v4, reach) == LeftAll(v[..k], v4, reach) + v[k..]
    ensures Turns(v, k + 1, v4, reach) == LeftAll(v[..k + 1], v4, reach) + v[k + 1..]
  {
    OneTurn(v, k, v4, reach);
    Regroup(LeftAll(v[..k], v4, reach), v, k);
  }

  /** On a list with distinct node ids the loop leaves every reachable entry, each exactly once. */
  lemma {:induction false} TurnsLeaveAll(v: seq<Virtual>, k: nat, v4: string, reach: set<Ref>)
    requires UidsDistinct(v) && k <= |v|
    ensures Turns(v, k, v4, reach) == LeftAll(v[..k], v4, reach) + v[k..]
  {
    if k == 0 {
      assert LeftAll(v[..0], v4, reach) + v[0..] == v;
    } else {
      TurnsLeaveAll(v, k - 1, v4, reach);
      NextTurn(v, k - 1, v4, reach);
    }
  }

  lemma Regroup(done: seq<Virtual>, v: seq<Virtual>, i: nat)
    requires i < |v|
    ensures done + v[i..] == done + [v[i]] + v[i + 1..]
  {
  }

  lemma RulesOfOther(v: seq<Virtual>, more: seq<Virtual>, uid: string)
    requires forall y | y in more :: y.uid != uid
    ensures RulesOf(v + more, uid) == RulesOf(v, uid)
  {
    FindAppend(v, more, uid);
  }

  lemma RulesOfLast(v: seq<Virtual>, more: seq<Virtual>, uid: string)
    requires !Mentions(v, uid)
    ensures RulesOf(v + more, uid) == RulesOf(more, uid) && RulesOf(v, uid) == []
  {
    FindAppend(v, more, uid);
  }

  /** Each node's rules afterwards: without the client's where the call got as far as that, else as before. */
  lemma {:induction false} LeftAllRules(v: seq<Virtual>, v4: string, reach: set<Ref>, uid: string)
    requires UidsDistinct(v)
    ensures RulesOf(LeftAll(v, v4, reach), uid) ==
            if Leaves(uid, reach) then Filter(RulesOf(v, uid), NotFrom(v4)) else RulesOf(v, uid)
  {
    if v != [] {
      var init, x := v[..|v| - 1], v[|v| - 1];
      assert v == init + [x];
      if x.uid == uid {
        UidsApart(v, |v| - 1);
        LeftAllUids(init, v4, reach);
        RulesOfLast(init, [x], uid);
        RulesOfLast(LeftAll(init, v4, reach), LeftEntry(x, v4, reach), uid);
      } else {
        LeftAllRules(init, v4, reach, uid);
        RulesOfOther(init, [x], uid);
        RulesOfOther(LeftAll(init, v4, reach), LeftEntry(x, v4, reach), uid);
      }
    }
  }

  /** Filed under the id of a reachable workload whose name has no dot. */
  ghost predicate Findable(x: Virtual, reach: set<Ref>) {
    exists r | r in reach :: x.uid == NodeId(r) && '.' !in r.name
  }

  /** When every entry belongs to a reachable workload with a dot-free name, the client's rules are
      gone from every node and everyone else's are there in order. */
  lemma LeavesEverywhere(v: seq<Virtual>, v4: string, reach: set<Ref>, uid: string)
    requires UidsDistinct(v) && forall x | x in v :: Findable(x, reach)
    ensures RulesOf(Turns(v, |v|, v4, reach), uid) == Filter(RulesOf(v, uid), NotFrom(v4))
  {
    TurnsLeaveAll(v, |v|, v4, reach);
    assert v[..|v|] == v && LeftAll(v, v4, reach) + v[|v|..] == LeftAll(v, v4, reach);
    LeftAllRules(v, v4, reach, uid);
    var i := Find(v, uid);
    if i < |v| {
      assert v[i] in v;
      var r :| r in reach && v[i].uid == NodeId(r) && '.' !in r.name;
      ParsesBackIff(r);
    }
  }

  /** A workload with a dot in its name is looked up under another one: unless that one happens to
      exist, the client stays in its rules. */
  lemma DottedNameIsMissed(v: seq<Virtual>, v4: string, reach: set<Ref>, r: Ref)
    requires UidsDistinct(v) && '.' in r.name && !Leaves(NodeId(r), reach)
    ensures Parse(NodeId(r)) != Some(r)
    ensures RulesOf(Turns(v, |v|, v4, reach), NodeId(r)) == RulesOf(v, NodeId(r))
  {
    ParsesBackIff(r);
    TurnsLeaveAll(v, |v|, v4, reach);
    assert v[..|v|] == v && LeftAll(v, v4, reach) + v[|v|..] == LeftAll(v, v4, reach);
    LeftAllRules(v, v4, reach, NodeId(r));
  }
}
