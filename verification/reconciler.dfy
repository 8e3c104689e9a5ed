/**
  The address reconciler: when the configured HAProxy address is already used
  by a node, the smallest free last octet in 2..255 of the same first three
  dot-separated parts is taken instead; when none is free the configured
  address is kept.
 */
module Reconciler {
  import opened Wrappers
  import opened Text
  import opened Settings
  import opened Topology

  /** The block used when the configured address has fewer than three parts. */
  const FallbackBase := DefaultBlock
  /** HAProxy's address when `HAPROXY_IP` is not set: `172.25.0.100`. */
  const DefaultHaproxyIp := DefaultBlock + ".100"

  function ConfiguredHaproxyIp(vars: map<string, string>): string {
    Get(vars, "HAPROXY_IP", DefaultHaproxyIp)
  }
  const LowestOctet := 2
  const HighestOctet := 255

  /** Every node address, of both kinds. */
  function UsedIps(pg: seq<Node>, etcd: seq<Node>): (used: set<string>)
    ensures forall ip :: ip in used <==> (exists k :: 0 <= k < |pg| && pg[k].ip == ip) || (exists k :: 0 <= k < |etcd| && etcd[k].ip == ip)
  {
    var nodes := pg + etcd;
    assert forall k :: 0 <= k < |pg| ==> nodes[k] == pg[k];
    assert forall k :: 0 <= k < |etcd| ==> nodes[|pg| + k] == etcd[k];
    set k | 0 <= k < |nodes| :: nodes[k].ip
  }

  /** The first three dot-separated parts of the configured address, or the fallback. */
  function BlockBase(configured: string): string {
    var parts := Split(configured, '.');
    if |parts| >= 3 then Join('.', parts[..3]) else FallbackBase
  }

  lemma JoinThree(a: string, b: string, c: string)
    ensures Join('.', [a, b, c]) == a + "." + b + "." + c
  {
    assert [a, b, c][1..] == [b, c] && [b, c][1..] == [c];
    assert Join('.', [b, c]) == b + ['.'] + c;
    assert Join('.', [a, b, c]) == a + ['.'] + (b + ['.'] + c);
    assert a + ['.'] + (b + ['.'] + c) == a + "." + b + "." + c;
  }

  lemma JoinFour(a: string, b: string, c: string, d: string)
    ensures Join('.', [a, b, c, d]) == a + "." + b + "." + c + "." + d
  {
    assert [a, b, c, d][1..] == [b, c, d];
    JoinThree(b, c, d);
    assert Join('.', [a, b, c, d]) == a + ['.'] + (b + "." + c + "." + d);
    assert a + ['.'] + (b + "." + c + "." + d) == a + "." + b + "." + c + "." + d;
  }

  /** The block of a dotted quad `a.b.c.d` is `a.b.c`. */
  lemma BlockBaseOfQuad(a: string, b: string, c: string, d: string)
    requires '.' !in a && '.' !in b && '.' !in c && '.' !in d
    ensures BlockBase(a + "." + b + "." + c + "." + d) == a + "." + b + "." + c
  {
    var parts := [a, b, c, d];
    JoinFour(a, b, c, d);
    assert forall i :: 0 <= i < |parts| ==> '.' !in parts[i];
    SplitJoin('.', parts);
    assert parts[..3] == [a, b, c];
    JoinThree(a, b, c);
  }

  /** The address with last octet `octet` in block `base`. */
  function Candidate(base: string, octet: nat): string {
    base + "." + NatToString(octet)
  }

  /** `k` is the smallest octet in 2..255 whose address in `base` is unused. */
  ghost predicate IsLeastFreeOctet(base: string, used: set<string>, k: nat) {
    && LowestOctet <= k <= HighestOctet
    && Candidate(base, k) !in used
    && forall j :: LowestOctet <= j < k ==> Candidate(base, j) in used
  }

  /** Every address of octets 2..255 in `base` is used. */
  ghost predicate BlockExhausted(base: string, used: set<string>) {
    forall j :: LowestOctet <= j <= HighestOctet ==> Candidate(base, j) in used
  }

  /**
    The ascending scan from `lo`: the first octet up to 255 whose address is
    unused, all octets before it from `lo` on being used; `None` when every
    octet from `lo` to 255 is used.
   */
  function FirstFreeOctet(base: string, used: set<string>, lo: nat): (r: Option<nat>)
    ensures r.Some? ==> lo <= r.value <= HighestOctet && Candidate(base, r.value) !in used
    ensures r.Some? ==> forall j :: lo <= j < r.value ==> Candidate(base, j) in used
    ensures r.None? ==> forall j :: lo <= j <= HighestOctet ==> Candidate(base, j) in used
    decreases HighestOctet + 1 - lo
  {
    if lo > HighestOctet then None
    else if Candidate(base, lo) !in used then Some(lo)
    else FirstFreeOctet(base, used, lo + 1)
  }

  /**
    The effective HAProxy address. No collision: the configured address. A
    collision: the least free octet of the block, or, when the block is
    exhausted, the configured (colliding) address.
   */
  function Reconcile(configured: string, used: set<string>): (r: string)
    ensures configured !in used ==> r == configured
    ensures configured in used && !BlockExhausted(BlockBase(configured), used) ==>
      exists k :: IsLeastFreeOctet(BlockBase(configured), used, k) && r == Candidate(BlockBase(configured), k)
    ensures configured in used && BlockExhausted(BlockBase(configured), used) ==> r == configured
    ensures r !in used || BlockExhausted(BlockBase(configured), used)
  {
    if configured !in used then configured
    else
      match FirstFreeOctet(BlockBase(configured), used, LowestOctet)
      case Some(k) => Candidate(BlockBase(configured), k)
      case None => configured
  }

  /** There is only one least free octet. */
  lemma LeastFreeOctetUnique(base: string, used: set<string>, k1: nat, k2: nat)
    requires IsLeastFreeOctet(base, used, k1) && IsLeastFreeOctet(base, used, k2)
    ensures k1 == k2
  {
  }

  /** The generator's loop: try octets 2, 3, …, 255 and stop at the first free one. */
  method ReconcileByScan(configured: string, used: set<string>) returns (r: string)
    ensures r == Reconcile(configured, used)
  {
    r := configured;
    if configured in used {
      var base := BlockBase(configured);
      var octet := LowestOctet;
      var chosen: Option<string> := None;
      while octet <= HighestOctet && chosen.None?
        invariant LowestOctet <= octet <= HighestOctet + 1
        invariant chosen.None? ==> forall j :: LowestOctet <= j < octet ==> Candidate(base, j) in used
        invariant chosen.Some? ==>
          (octet >= LowestOctet + 1 && IsLeastFreeOctet(base, used, octet - 1) && chosen.value == Candidate(base, octet - 1))
        decreases HighestOctet + 1 - octet
      {
        var candidate := Candidate(base, octet);
        if candidate !in used {
          chosen := Some(candidate);
        }
        octet := octet + 1;
      }
      var expected := FirstFreeOctet(base, used, LowestOctet);
      if chosen.Some? {
        LeastFreeOctetUnique(base, used, expected.value, octet - 1);
        r := chosen.value;
      }
    }
  }

  /**
    The chosen address stays in the configured block: when the configured
    address has at least three parts, a candidate has exactly four parts and
    its first three are the configured address's first three.
   */
  lemma CandidateInSameBlock(configured: string, octet: nat)
    requires |Split(configured, '.')| >= 3
    ensures |Split(Candidate(BlockBase(configured), octet), '.')| == 4
    ensures Split(Candidate(BlockBase(configured), octet), '.')[..3] == Split(configured, '.')[..3]
  {
    var parts := Split(configured, '.');
    var head := parts[..3];
    var digits := NatToString(octet);
    assert '.' !in digits by {
      assert forall i :: 0 <= i < |digits| ==> IsDigit(digits[i]);
    }
    var all := head + [digits];
    assert forall i :: 0 <= i < |all| ==> '.' !in all[i];
    assert Join('.', all) == Candidate(BlockBase(configured), octet) by {
      JoinAppend('.', head, digits);
    }
    SplitJoin('.', all);
  }
}
