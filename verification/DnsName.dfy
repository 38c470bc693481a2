/**
 Domain names in a DNS packet (dns.c): the comparison walk over compressed names, the
 length walk, and the encoder.

 A packet is the sequence of its `size` bytes, a name the sequence of its bytes.  The
 comparison loop is given as a machine of single steps, because it need not stop: the
 lemmas on `Stops` say exactly when it does.
 */
module DnsName {
  import opened Bytes

  const DOT: byte := 0x2E

  // ---------- Compression pointers ----------

  predicate IsPointer(p: seq<byte>, pos: nat) {
    pos < |p| && p[pos] >= 0xC0
  }

  // A pointer the code follows: both its bytes and its target are in the packet.
  predicate Followed(p: seq<byte>, pos: nat) {
    IsPointer(p, pos) && pos + 2 <= |p| && Target(p, pos) < |p|
  }

  function Target(p: seq<byte>, pos: nat): nat
    requires IsPointer(p, pos) && pos + 2 <= |p|
  {
    var high: int := p[pos];
    256 * (high - 0xC0) + p[pos + 1]
  }

  // ---------- The comparison walk ----------

  // pcmp, pname and end of dns_name_compare, as offsets.
  datatype Walk = Walk(pos: nat, matched: nat, end: Option<nat>)

  // One turn of the loop: go on, or leave it with the new offset (None: return false).
  datatype Turn = Go(next: Walk) | Done(result: Option<nat>)

  predicate WalkOk(p: seq<byte>, name: seq<byte>, w: Walk) {
    w.pos < |p| && w.matched <= |name|
  }

  // How much of the name a label of length `len` must match, with the dot before it.
  function Cost(first: bool, len: nat): nat {
    if first then len else len + 1
  }

  function Step(p: seq<byte>, name: seq<byte>, w: Walk): (t: Turn)
    requires WalkOk(p, name, w)
    ensures t.Go? ==> WalkOk(p, name, t.next)
  {
    var b := p[w.pos];
    if b == 0 then
      if w.matched != |name| then Done(None)
      else Done(Some(if w.end.Some? then w.end.value + 1 else w.pos + 1))
    else if b >= 0xC0 then
      if w.pos + 2 > |p| || Target(p, w.pos) + 1 > |p| then Done(None)
      else Go(Walk(Target(p, w.pos), w.matched, if w.end.Some? then w.end else Some(w.pos + 1)))
    else if b < 0x40 then
      var from := w.pos + 1;
      if from + b + 1 > |p| then Done(None)
      else if w.matched != 0 && (w.matched == |name| || name[w.matched] != DOT) then Done(None)
      else
        var at := if w.matched != 0 then w.matched + 1 else 0;
        if at + b > |name| || p[from..from + b] != name[at..at + b] then Done(None)
        else Go(Walk(from + b, at + b, w.end))
    else Done(None)
  }

  // The walk from w if it leaves the loop within `fuel` turns.
  function Run(p: seq<byte>, name: seq<byte>, w: Walk, fuel: nat): Option<Option<nat>>
    requires WalkOk(p, name, w)
    decreases fuel
  {
    if fuel == 0 then None
    else
      match Step(p, name, w)
      case Done(result) => Some(result)
      case Go(next) => Run(p, name, next, fuel - 1)
  }

  ghost predicate Stops(p: seq<byte>, name: seq<byte>, w: Walk)
    requires WalkOk(p, name, w)
  {
    exists fuel: nat :: Run(p, name, w, fuel).Some?
  }

  lemma {:induction false} RunMonotone(p: seq<byte>, name: seq<byte>, w: Walk, fuel: nat, more: nat)
    requires WalkOk(p, name, w) && Run(p, name, w, fuel).Some? && fuel <= more
    ensures Run(p, name, w, more) == Run(p, name, w, fuel)
    decreases fuel
  {
    var t := Step(p, name, w);
    if t.Go? {
      RunMonotone(p, name, t.next, fuel - 1, more - 1);
    }
  }

  lemma RunUnique(p: seq<byte>, name: seq<byte>, w: Walk, f: nat, g: nat)
    requires WalkOk(p, name, w) && Run(p, name, w, f).Some? && Run(p, name, w, g).Some?
    ensures Run(p, name, w, f) == Run(p, name, w, g)
  {
    RunMonotone(p, name, w, f, if f < g then g else f);
    RunMonotone(p, name, w, g, if f < g then g else f);
  }

  function Start(offset: nat): Walk {
    Walk(offset, 0, None)
  }

  /** What dns_name_compare does at `offset`: fail, succeed and move to `end`, or loop. */
  datatype Comparison = Diverges | Differs | Matches(end: nat)

  ghost function Compare(p: seq<byte>, offset: nat, name: seq<byte>): Comparison {
    if offset + 1 > |p| || |name| == 0 then Differs
    else if Stops(p, name, Start(offset)) then
      var fuel: nat :| Run(p, name, Start(offset), fuel).Some?;
      var result := Run(p, name, Start(offset), fuel).value;
      if result.Some? then Matches(result.value) else Differs
    else Diverges
  }

  lemma CompareIsRun(p: seq<byte>, offset: nat, name: seq<byte>, fuel: nat)
    requires offset < |p| && name != []
    requires Run(p, name, Start(offset), fuel).Some?
    ensures Compare(p, offset, name) ==
            var result := Run(p, name, Start(offset), fuel).value;
            if result.Some? then Matches(result.value) else Differs
  {
    forall other: nat | Run(p, name, Start(offset), other).Some?
      ensures Run(p, name, Start(offset), other) == Run(p, name, Start(offset), fuel)
    {
      RunUnique(p, name, Start(offset), fuel, other);
    }
  }

  // ---------- What a name in a packet means ----------

  /** Section 4.1.4 of RFC 1035: the labels of the name at `pos`, every pointer followed.
      `turns` bounds the number of bytes that start a label, a pointer or the end. */
  predicate NameAt(p: seq<byte>, pos: nat, labels: seq<seq<byte>>, turns: nat)
    decreases turns
  {
    turns > 0 && pos < |p| &&
    if p[pos] == 0 then labels == []
    else if p[pos] >= 0xC0 then Followed(p, pos) && NameAt(p, Target(p, pos), labels, turns - 1)
    else
      && p[pos] < 0x40
      && pos + 1 + p[pos] < |p|
      && labels != []
      && labels[0] == p[pos + 1..pos + 1 + p[pos]]
      && NameAt(p, pos + 1 + p[pos], labels[1..], turns - 1)
  }

  // Every label with a dot before it.
  function After(labels: seq<seq<byte>>): seq<byte> {
    if labels == [] then [] else [DOT] + labels[0] + After(labels[1..])
  }

  // The labels with a dot between any two.
  function Dotted(labels: seq<seq<byte>>): seq<byte> {
    if labels == [] then [] else labels[0] + After(labels[1..])
  }

  // The name bytes still to be matched before the labels at the walk's place.
  function Remaining(labels: seq<seq<byte>>, matched: nat): seq<byte> {
    if matched == 0 then Dotted(labels) else After(labels)
  }

  /** dns_name_len: the bytes the name at `pos` takes up, to its end or first pointer. */
  function WireLength(p: seq<byte>, pos: nat): (r: Option<nat>)
    ensures r.Some? ==> 1 <= r.value && pos + r.value <= |p|
    decreases |p| - pos
  {
    if pos >= |p| then None
    else if p[pos] == 0 then Some(1)
    else if p[pos] >= 0xC0 then if pos + 2 > |p| then None else Some(2)
    else if p[pos] >= 0x40 || pos + 1 + p[pos] + 1 > |p| then None
    else
      var rest := WireLength(p, pos + 1 + p[pos]);
      if rest.Some? then Some(1 + p[pos] + rest.value) else None
  }

  // The offset a finished walk reports: fixed by the first pointer, else by the end.
  predicate EndsAt(p: seq<byte>, w: Walk, end: nat) {
    if w.end.Some? then end == w.end.value + 1
    else WireLength(p, w.pos).Some? && end == w.pos + WireLength(p, w.pos).value
  }

  // Where the bytes of the next label are to be found in the name.
  function LabelStart(matched: nat): nat {
    if matched != 0 then matched + 1 else 0
  }

  lemma RemainingStep(name: seq<byte>, matched: nat, labels: seq<seq<byte>>)
    requires matched <= |name| && labels != [] && labels[0] != []
    ensures name[matched..] == Remaining(labels, matched) <==>
            && (matched != 0 ==> matched < |name| && name[matched] == DOT)
            && LabelStart(matched) + |labels[0]| <= |name|
            && name[LabelStart(matched)..LabelStart(matched) + |labels[0]|] == labels[0]
            && name[LabelStart(matched) + |labels[0]|..] == After(labels[1..])
  {
    var tail := After(labels[1..]);
    if matched == 0 {
      SplitsAs(name, labels[0], tail);
    } else {
      assert After(labels) == [DOT] + (labels[0] + tail);
      SplitsAs(name[matched..], [DOT], labels[0] + tail);
      if matched < |name| {
        assert name[matched..][..1] == [name[matched]];
        assert name[matched..][1..] == name[matched + 1..];
        SplitsAs(name[matched + 1..], labels[0], tail);
        if matched + 1 + |labels[0]| <= |name| {
          assert name[matched + 1..][..|labels[0]|] == name[matched + 1..matched + 1 + |labels[0]|];
          assert name[matched + 1..][|labels[0]|..] == name[matched + 1 + |labels[0]|..];
        }
      }
    }
  }

  lemma SplitsAs(s: seq<byte>, a: seq<byte>, b: seq<byte>)
    ensures s == a + b <==> |a| <= |s| && s[..|a|] == a && s[|a|..] == b
  {
    if |a| <= |s| && s[..|a|] == a && s[|a|..] == b {
      assert s == s[..|a|] + s[|a|..];
    }
  }

  lemma {:induction false} RunSound(p: seq<byte>, name: seq<byte>, w: Walk,
      fuel: nat) returns (labels: seq<seq<byte>>)
    requires WalkOk(p, name, w)
    requires Run(p, name, w, fuel).Some? && Run(p, name, w, fuel).value.Some?
    ensures NameAt(p, w.pos, labels, fuel)
    ensures name[w.matched..] == Remaining(labels, w.matched)
    ensures EndsAt(p, w, Run(p, name, w, fuel).value.value)
    decreases fuel
  {
    RunTurn(p, name, w, fuel);
    hide Run;
    var b := p[w.pos];
    if b == 0 {
      labels := [];
      EndHere(p, name, w);
    } else {
      hide EndsAt;
      var next := Step(p, name, w).next;
      labels := RunSound(p, name, next, fuel - 1);
      EndsCarry(p, name, w, Run(p, name, w, fuel).value.value);
      if b < 0x40 {
        LabelSound(p, name, w, labels, fuel - 1);
        labels := [p[w.pos + 1..w.pos + 1 + b]] + labels;
      }
    }
  }

  lemma EndHere(p: seq<byte>, name: seq<byte>, w: Walk)
    requires WalkOk(p, name, w) && p[w.pos] == 0 && Step(p, name, w).Done? && Step(p, name, w).result.Some?
    ensures NameAt(p, w.pos, [], 1) && name[w.matched..] == Remaining([], w.matched)
    ensures EndsAt(p, w, Step(p, name, w).result.value)
  {
  }

  lemma EndsCarry(p: seq<byte>, name: seq<byte>, w: Walk, end: nat)
    requires WalkOk(p, name, w) && Step(p, name, w).Go? && EndsAt(p, Step(p, name, w).next, end)
    ensures EndsAt(p, w, end)
  {
  }

  lemma LabelSound(p: seq<byte>, name: seq<byte>, w: Walk, rest: seq<seq<byte>>, turns: nat)
    requires WalkOk(p, name, w) && Step(p, name, w).Go? && 0 < p[w.pos] < 0x40
    requires var next := Step(p, name, w).next;
             NameAt(p, next.pos, rest, turns) && name[next.matched..] == Remaining(rest, next.matched)
    ensures var labels := [p[w.pos + 1..w.pos + 1 + p[w.pos]]] + rest;
            NameAt(p, w.pos, labels, turns + 1) && name[w.matched..] == Remaining(labels, w.matched)
  {
    var labels := [p[w.pos + 1..w.pos + 1 + p[w.pos]]] + rest;
    assert labels[1..] == rest;
    NameCons(p, w.pos, labels, turns);
    hide NameAt;
    RemainingStep(name, w.matched, labels);
  }

  lemma {:induction false} RunComplete(p: seq<byte>, name: seq<byte>, w: Walk, labels: seq<seq<byte>>, turns: nat)
    requires WalkOk(p, name, w) && NameAt(p, w.pos, labels, turns)
    requires name[w.matched..] == Remaining(labels, w.matched)
    ensures Run(p, name, w, turns).Some? && Run(p, name, w, turns).value.Some?
    decreases turns
  {
    RunUnfolds(p, name, w, turns);
    hide Run;
    var b := p[w.pos];
    if b == 0 {
    } else if b >= 0xC0 {
      RunComplete(p, name, Step(p, name, w).next, labels, turns - 1);
    } else {
      LabelComplete(p, name, w, labels, turns);
      hide Step, NameAt, Remaining;
      RunComplete(p, name, Step(p, name, w).next, labels[1..], turns - 1);
    }
  }

  lemma LabelComplete(p: seq<byte>, name: seq<byte>, w: Walk, labels: seq<seq<byte>>, turns: nat)
    requires WalkOk(p, name, w) && NameAt(p, w.pos, labels, turns) && 0 < p[w.pos] < 0xC0
    requires name[w.matched..] == Remaining(labels, w.matched)
    ensures labels != [] && Step(p, name, w).Go?
    ensures var next := Step(p, name, w).next;
            NameAt(p, next.pos, labels[1..], turns - 1)
              && name[next.matched..] == Remaining(labels[1..], next.matched)
  {
    RemainingStep(name, w.matched, labels);
  }

  lemma {:induction false} NameUnique(p: seq<byte>, pos: nat, l1: seq<seq<byte>>, n1: nat, l2: seq<seq<byte>>,
      n2: nat)
    requires NameAt(p, pos, l1, n1) && NameAt(p, pos, l2, n2)
    ensures l1 == l2
    decreases n1
  {
    if p[pos] == 0 {
    } else if p[pos] >= 0xC0 {
      NameUnique(p, Target(p, pos), l1, n1 - 1, l2, n2 - 1);
    } else {
      NameUnique(p, pos + 1 + p[pos], l1[1..], n1 - 1, l2[1..], n2 - 1);
      assert l1 == [l1[0]] + l1[1..] && l2 == [l2[0]] + l2[1..];
    }
  }

  ghost predicate Denotes(p: seq<byte>, pos: nat, name: seq<byte>) {
    exists labels, turns: nat :: NameAt(p, pos, labels, turns) && Dotted(labels) == name
  }

  /** The comparison succeeds exactly when the fully followed name at `offset` is the
      (non-empty) query name; the offset then moves by what dns_name_len measures. */
  lemma {:induction false} CompareIsDenotation(p: seq<byte>, offset: nat, name: seq<byte>)
    ensures Compare(p, offset, name).Matches? <==> name != [] && Denotes(p, offset, name)
    ensures Compare(p, offset, name).Matches? ==>
              && WireLength(p, offset).Some?
              && Compare(p, offset, name).end == offset + WireLength(p, offset).value
  {
    if offset < |p| && name != [] {
      var w := Start(offset);
      assert name[0..] == name;
      if Compare(p, offset, name).Matches? {
        var fuel: nat :| Run(p, name, w, fuel).Some?;
        CompareIsRun(p, offset, name, fuel);
        var labels := RunSound(p, name, w, fuel);
        assert NameAt(p, offset, labels, fuel) && Dotted(labels) == name;
      }
      forall labels, turns: nat | NameAt(p, offset, labels, turns) && Dotted(labels) == name
        ensures Compare(p, offset, name).Matches?
      {
        RunComplete(p, name, w, labels, turns);
        CompareIsRun(p, offset, name, turns);
      }
    }
  }

  // ---------- When the comparison stops ----------

  // Following pointers from pos gets, within `hops`, to a byte that is not followed.
  predicate ChainEnds(p: seq<byte>, pos: nat, hops: nat)
    decreases hops
  {
    Followed(p, pos) ==> hops > 0 && ChainEnds(p, Target(p, pos), hops - 1)
  }

  function ChainEnd(p: seq<byte>, pos: nat, hops: nat): (e: nat)
    requires pos < |p| && ChainEnds(p, pos, hops)
    ensures e < |p| && !Followed(p, e)
    decreases hops
  {
    if Followed(p, pos) then ChainEnd(p, Target(p, pos), hops - 1) else pos
  }

  predicate LabelAt(p: seq<byte>, pos: nat) {
    pos < |p| && 0 < p[pos] < 0x40 && pos + 1 + p[pos] < |p|
  }

  /** Every chain of pointers met from `pos` ends, as far as `budget` name bytes can carry
      the walk.  Decidable: |p| hops are enough to tell (LongChainsLoop). */
  predicate Finite(p: seq<byte>, pos: nat, budget: nat, first: bool)
    requires pos < |p|
    decreases budget
  {
    && ChainEnds(p, pos, |p|)
    && var e := ChainEnd(p, pos, |p|);
       LabelAt(p, e) && Cost(first, p[e]) <= budget ==>
         Finite(p, e + 1 + p[e], budget - Cost(first, p[e]), false)
  }

  lemma {:induction false} ChainMonotone(p: seq<byte>, pos: nat, hops: nat)
    requires ChainEnds(p, pos, hops)
    ensures ChainEnds(p, pos, hops + 1)
    decreases hops
  {
    if Followed(p, pos) {
      ChainMonotone(p, Target(p, pos), hops - 1);
    }
  }

  ghost function Ending(p: seq<byte>, hops: nat): set<int> {
    set pos: int | 0 <= pos < |p| && ChainEnds(p, pos, hops)
  }

  // A chain that needs `hops` hops passes through as many levels of Ending.
  lemma {:induction false} EndingGrows(p: seq<byte>, pos: nat, hops: nat)
    requires pos < |p| && ChainEnds(p, pos, hops)
    requires hops > 0 ==> !ChainEnds(p, pos, hops - 1)
    ensures |Ending(p, hops)| > hops
    decreases hops
  {
    if hops == 0 {
      assert pos in Ending(p, 0);
    } else {
      EndingGrows(p, Target(p, pos), hops - 1);
      var smaller := Ending(p, hops - 1);
      forall q | q in smaller ensures q in Ending(p, hops) {
        ChainMonotone(p, q, hops - 1);
      }
      assert smaller + {pos} <= Ending(p, hops) && pos !in smaller;
      SubsetSize(smaller + {pos}, Ending(p, hops));
    }
  }

  lemma {:induction false} SubsetSize(a: set<int>, b: set<int>)
    requires a <= b
    ensures |a| <= |b|
  {
    assert b == a + (b - a);
  }

  ghost function Range(n: nat): (r: set<int>)
    ensures |r| == n && forall i :: i in r <==> 0 <= i < n
  {
    if n == 0 then {} else Range(n - 1) + {n - 1}
  }

  // If |p| hops do not get off the chain, nothing does.
  lemma {:induction false} LongChainsLoop(p: seq<byte>, pos: nat, hops: nat)
    requires pos < |p| && ChainEnds(p, pos, hops)
    ensures ChainEnds(p, pos, |p|)
    decreases hops
  {
    if hops > 0 && ChainEnds(p, pos, hops - 1) {
      LongChainsLoop(p, pos, hops - 1);
    } else {
      EndingGrows(p, pos, hops);
      SubsetSize(Ending(p, hops), Range(|p|));
      ChainMonotoneTo(p, pos, hops, |p|);
    }
  }

  lemma {:induction false} ChainMonotoneTo(p: seq<byte>, pos: nat, hops: nat, more: nat)
    requires ChainEnds(p, pos, hops) && hops <= more
    ensures ChainEnds(p, pos, more)
    decreases more - hops
  {
    if hops < more {
      ChainMonotone(p, pos, hops);
      ChainMonotoneTo(p, pos, hops + 1, more);
    }
  }

  // The measure of the loop: unmatched name bytes, then pointers still to follow.
  lemma {:induction false} FiniteStops(p: seq<byte>, name: seq<byte>, w: Walk, hops: nat) returns (fuel: nat)
    requires WalkOk(p, name, w) && ChainEnds(p, w.pos, hops)
    requires var e := ChainEnd(p, w.pos, hops);
             var budget := |name| - w.matched;
             LabelAt(p, e) && Cost(w.matched == 0, p[e]) <= budget ==>
               Finite(p, e + 1 + p[e], budget - Cost(w.matched == 0, p[e]), false)
    ensures Run(p, name, w, fuel).Some?
    decreases |name| - w.matched, hops
  {
    var t := Step(p, name, w);
    if t.Done? {
      fuel := 1;
    } else {
      fuel := FiniteStops(p, name, t.next, if Followed(p, w.pos) then hops - 1 else |p|);
      fuel := fuel + 1;
    }
  }

  lemma {:induction false} LoopsForever(p: seq<byte>, name: seq<byte>, w: Walk, fuel: nat)
    requires WalkOk(p, name, w) && !ChainEnds(p, w.pos, |p|)
    ensures Run(p, name, w, fuel) == None
    decreases fuel
  {
    if fuel > 0 {
      if ChainEnds(p, Target(p, w.pos), |p|) {
        assert ChainEnds(p, w.pos, |p| + 1);
        LongChainsLoop(p, w.pos, |p| + 1);
      }
      LoopsForever(p, name, Step(p, name, w).next, fuel - 1);
    }
  }

  // Pointers followed before a place where the walk loops make no difference.
  lemma {:induction false} LoopsThroughChain(p: seq<byte>, name: seq<byte>, w: Walk, hops: nat, fuel: nat)
    requires WalkOk(p, name, w) && ChainEnds(p, w.pos, hops)
    requires forall end, f: nat :: Run(p, name, Walk(ChainEnd(p, w.pos, hops), w.matched, end), f) == None
    ensures Run(p, name, w, fuel) == None
    decreases hops
  {
    if !Followed(p, w.pos) {
      assert w == Walk(ChainEnd(p, w.pos, hops), w.matched, w.end);
    } else if fuel > 0 {
      var next := Step(p, name, w).next;
      assert ChainEnd(p, next.pos, hops - 1) == ChainEnd(p, w.pos, hops);
      LoopsThroughChain(p, name, next, hops - 1, fuel - 1);
    }
  }

  // A name that leads the walk into a chain without end.
  lemma {:induction false} LoopingName(p: seq<byte>, pos: nat, budget: nat,
      prefix: seq<byte>) returns (name: seq<byte>)
    requires pos < |p| && !Finite(p, pos, budget, prefix == [])
    ensures |name| == |prefix| + budget && prefix == name[..|prefix|]
    ensures forall end, fuel: nat :: Run(p, name, Walk(pos, |prefix|, end), fuel) == None
    decreases budget
  {
    if !ChainEnds(p, pos, |p|) {
      name := prefix + Zeros(budget);
      forall end, fuel: nat ensures Run(p, name, Walk(pos, |prefix|, end), fuel) == None {
        LoopsForever(p, name, Walk(pos, |prefix|, end), fuel);
      }
    } else {
      var e := ChainEnd(p, pos, |p|);
      var head := p[e + 1..e + 1 + p[e]];
      var longer := if prefix == [] then head else prefix + [DOT] + head;
      name := LoopingName(p, e + 1 + p[e], budget - Cost(prefix == [], p[e]), longer);
      PrefixOfPrefix(name, prefix, head);
      forall end, fuel: nat ensures Run(p, name, Walk(e, |prefix|, end), fuel) == None {
        hide Run;
        LoopsBehind(p, name, Walk(e, |prefix|, end), |longer|, fuel);
      }
      forall end, fuel: nat ensures Run(p, name, Walk(pos, |prefix|, end), fuel) == None {
        hide Run;
        LoopsThroughChain(p, name, Walk(pos, |prefix|, end), |p|, fuel);
      }
    }
  }

  // A label that matches in front of a place where the walk loops makes no difference either.
  lemma LoopsBehind(p: seq<byte>, name: seq<byte>, w: Walk, matched: nat, fuel: nat)
    requires WalkOk(p, name, w) && LabelAt(p, w.pos)
             && matched == w.matched + Cost(w.matched == 0, p[w.pos]) <= |name|
    requires w.matched != 0 ==> name[w.matched] == DOT
    requires name[LabelStart(w.matched)..matched] == p[w.pos + 1..w.pos + 1 + p[w.pos]]
    requires fuel > 0 ==> Run(p, name, Walk(w.pos + 1 + p[w.pos], matched, w.end), fuel - 1) == None
    ensures Run(p, name, w, fuel) == None
  {
    if fuel > 0 {
      assert Step(p, name, w) == Go(Walk(w.pos + 1 + p[w.pos], matched, w.end));
    }
  }

  lemma PrefixOfPrefix(name: seq<byte>, prefix: seq<byte>, head: seq<byte>)
    requires var longer := if prefix == [] then head else prefix + [DOT] + head;
             |longer| <= |name| && name[..|longer|] == longer
    ensures name[..|prefix|] == prefix
    ensures prefix != [] ==> name[|prefix|] == DOT
    ensures name[LabelStart(|prefix|)..LabelStart(|prefix|) + |head|] == head
  {
    var longer := if prefix == [] then head else prefix + [DOT] + head;
    assert name[..|prefix|] == longer[..|prefix|];
    assert prefix != [] ==> name[|prefix|] == longer[|prefix|];
    assert name[LabelStart(|prefix|)..|longer|] == longer[LabelStart(|prefix|)..];
  }

  /** Termination, exactly: the comparison at `offset` returns for every name of a given
      length if and only if every chain of pointers such a name can reach ends. */
  lemma {:induction false} StopsExactly(p: seq<byte>, offset: nat, length: nat)
    requires offset < |p|
    ensures Finite(p, offset, length, true) <==>
            forall name: seq<byte> | |name| == length :: Stops(p, name, Start(offset))
  {
    if Finite(p, offset, length, true) {
      forall name: seq<byte> | |name| == length ensures Stops(p, name, Start(offset)) {
        var fuel := FiniteStops(p, name, Start(offset), |p|);
      }
    } else {
      var name := LoopingName(p, offset, length, []);
      assert forall fuel: nat :: Run(p, name, Walk(offset, 0, None), fuel) == None;
      assert !Stops(p, name, Start(offset));
    }
  }

  // The "prior occurrence" rule of section 4.1.4 of RFC 1035: pointers only point back.
  predicate BackwardOnly(p: seq<byte>) {
    forall pos | 0 <= pos < |p| :: Followed(p, pos) ==> Target(p, pos) < pos
  }

  /** A packet in which a name of `length` bytes can be compared anywhere: every chain of
      pointers that it can reach from any place ends. */
  predicate Safe(p: seq<byte>, length: nat) {
    forall pos | 0 <= pos < |p| :: Finite(p, pos, length, true)
  }

  /** Safe, exactly: every comparison in the packet stops, whatever name of that length is
      looked for and wherever. */
  lemma {:induction false} SafeExactly(p: seq<byte>, length: nat)
    ensures Safe(p, length) <==>
            forall pos, name: seq<byte> | 0 <= pos < |p| && |name| == length :: Stops(p, name, Start(pos))
  {
    forall pos | 0 <= pos < |p|
      ensures Finite(p, pos, length, true) <==>
              forall name: seq<byte> | |name| == length :: Stops(p, name, Start(pos))
    {
      StopsExactly(p, pos, length);
    }
  }

  /** Under the prior occurrence rule a packet is safe, and every comparison in it stops. */
  lemma {:induction false} BackwardIsSafe(p: seq<byte>, length: nat)
    requires BackwardOnly(p)
    ensures Safe(p, length)
  {
    forall pos | 0 <= pos < |p| ensures Finite(p, pos, length, true) {
      BackwardIsFinite(p, pos, length, true);
    }
  }

  lemma {:induction false} BackwardPointersStop(p: seq<byte>, offset: nat, name: seq<byte>)
    requires offset < |p| && BackwardOnly(p)
    ensures Stops(p, name, Start(offset))
  {
    BackwardIsSafe(p, |name|);
    StopsExactly(p, offset, |name|);
  }

  lemma {:induction false} BackwardIsFinite(p: seq<byte>, pos: nat, budget: nat, first: bool)
    requires pos < |p| && BackwardOnly(p)
    ensures Finite(p, pos, budget, first)
    decreases budget
  {
    BackwardChainEnds(p, pos);
    ChainMonotoneTo(p, pos, pos, |p|);
    var e := ChainEnd(p, pos, |p|);
    if LabelAt(p, e) && Cost(first, p[e]) <= budget {
      BackwardIsFinite(p, e + 1 + p[e], budget - Cost(first, p[e]), false);
    }
  }

  lemma {:induction false} BackwardChainEnds(p: seq<byte>, pos: nat)
    requires forall q: nat :: Followed(p, q) ==> Target(p, q) < q
    ensures ChainEnds(p, pos, pos)
  {
    if Followed(p, pos) {
      BackwardChainEnds(p, Target(p, pos));
      ChainMonotoneTo(p, Target(p, pos), Target(p, pos), pos - 1);
    }
  }

  /** Not every comparison stops: a pointer to itself holds any name up for ever. */
  lemma {:induction false} SelfPointerLoops(p: seq<byte>, offset: nat, name: seq<byte>)
    requires Followed(p, offset) && Target(p, offset) == offset && name != []
    ensures Compare(p, offset, name) == Diverges
  {
    SelfChain(p, offset, |p|);
    forall fuel: nat ensures Run(p, name, Start(offset), fuel) == None {
      LoopsForever(p, name, Start(offset), fuel);
    }
  }

  lemma {:induction false} SelfChain(p: seq<byte>, offset: nat, hops: nat)
    requires Followed(p, offset) && Target(p, offset) == offset
    ensures !ChainEnds(p, offset, hops)
    decreases hops
  {
    if hops > 0 {
      SelfChain(p, offset, hops - 1);
    }
  }

  // ---------- Encoding a dotted name ----------

  // The labels between the dots; always at least one, possibly empty.
  function Split(name: seq<byte>): (labels: seq<seq<byte>>)
    ensures labels != []
  {
    if name == [] then [[]]
    else
      var rest := Split(name[1..]);
      if name[0] == DOT then [[]] + rest else [[name[0]] + rest[0]] + rest[1..]
  }

  predicate ShortLabels(labels: seq<seq<byte>>) {
    forall i | 0 <= i < |labels| :: |labels[i]| <= 63
  }

  // Each label behind its length byte.
  function Wire(labels: seq<seq<byte>>): seq<byte>
    requires ShortLabels(labels)
  {
    if labels == [] then [] else [|labels[0]|] + labels[0] + Wire(labels[1..])
  }

  function Encode(name: seq<byte>): seq<byte>
    requires ShortLabels(Split(name))
  {
    Wire(Split(name)) + [0]
  }

  // The last label of one part runs on into the first of the next.
  function Glue(l: seq<seq<byte>>, m: seq<seq<byte>>): (r: seq<seq<byte>>)
    requires l != [] && m != []
    ensures r != []
    decreases l
  {
    if |l| == 1 then [l[0] + m[0]] + m[1..] else [l[0]] + Glue(l[1..], m)
  }

  lemma GlueHead(c: byte, l: seq<seq<byte>>, m: seq<seq<byte>>)
    requires l != [] && m != []
    ensures var g := Glue(l, m);
            Glue([[c] + l[0]] + l[1..], m) == [[c] + g[0]] + g[1..]
  {
    assert ([[c] + l[0]] + l[1..])[1..] == l[1..];
    assert [c] + (l[0] + m[0]) == [c] + l[0] + m[0];
  }

  lemma {:induction false} SplitAppend(a: seq<byte>, b: seq<byte>)
    ensures Split(a + b) == Glue(Split(a), Split(b))
  {
    if a == [] {
      assert a + b == b;
      assert [] + Split(b)[0] == Split(b)[0];
    } else {
      assert (a + b)[1..] == a[1..] + b && (a + b)[0] == a[0];
      SplitAppend(a[1..], b);
      var rest := Split(a[1..]);
      if a[0] == DOT {
        assert ([[]] + rest)[1..] == rest;
      } else {
        GlueHead(a[0], rest, Split(b));
      }
    }
  }

  lemma {:induction false} GlueLast(done: seq<seq<byte>>, current: seq<byte>, m: seq<seq<byte>>)
    requires m != []
    ensures Glue(done + [current], m) == done + [current + m[0]] + m[1..]
  {
    if done != [] {
      GlueLast(done[1..], current, m);
      assert (done + [current])[1..] == done[1..] + [current];
      assert done == [done[0]] + done[1..];
    }
  }

  lemma {:induction false} WireSnoc(labels: seq<seq<byte>>, last: seq<byte>)
    requires ShortLabels(labels) && |last| <= 63
    ensures Wire(labels + [last]) == Wire(labels) + [|last|] + last
  {
    if labels == [] {
      assert labels + [last] == [last];
    } else {
      WireSnoc(labels[1..], last);
      assert (labels + [last])[1..] == labels[1..] + [last];
    }
  }

  lemma {:induction false} WireSize(name: seq<byte>)
    requires ShortLabels(Split(name))
    ensures |Wire(Split(name))| == |name| + 1
  {
    if name != [] {
      var l, rest := Split(name), Split(name[1..]);
      if name[0] == DOT {
        assert l[1..] == rest;
        WireSize(name[1..]);
      } else {
        assert rest == [rest[0]] + rest[1..] && |rest[0]| + 1 == |l[0]|;
        assert forall i | 0 < i < |rest| :: rest[i] == l[i];
        WireSize(name[1..]);
      }
    }
  }

  lemma {:induction false} DottedSplit(name: seq<byte>)
    ensures Dotted(Split(name)) == name
  {
    if name != [] {
      var rest := Split(name[1..]);
      DottedSplit(name[1..]);
      assert name == [name[0]] + name[1..];
      if name[0] == DOT {
        assert Split(name)[1..] == rest;
        AfterIsDotted(rest);
        assert [] + After(rest) == After(rest);
      } else {
        DottedHead(name[0], rest);
      }
    }
  }

  lemma AfterIsDotted(labels: seq<seq<byte>>)
    requires labels != []
    ensures After(labels) == [DOT] + Dotted(labels)
  {
    assert [DOT] + labels[0] + After(labels[1..]) == [DOT] + (labels[0] + After(labels[1..]));
  }

  lemma DottedHead(c: byte, labels: seq<seq<byte>>)
    requires labels != []
    ensures Dotted([[c] + labels[0]] + labels[1..]) == [c] + Dotted(labels)
  {
    assert ([[c] + labels[0]] + labels[1..])[1..] == labels[1..];
    assert [c] + labels[0] + After(labels[1..]) == [c] + (labels[0] + After(labels[1..]));
  }

  // A packet whose bytes from pos on are a + b has a there, and b after it.
  lemma Peel(p: seq<byte>, pos: nat, a: seq<byte>, b: seq<byte>)
    requires pos <= |p| && p[pos..] == a + b
    ensures pos + |a| <= |p| && p[pos..pos + |a|] == a && p[pos + |a|..] == b
  {
    assert p[pos..][..|a|] == a && p[pos..][|a|..] == b;
  }

  // The first label of a wire form, in place.
  lemma WirePeel(p: seq<byte>, pos: nat, labels: seq<seq<byte>>, tail: seq<byte>)
    requires ShortLabels(labels) && labels != []
    requires pos <= |p| && p[pos..] == Wire(labels) + [0] + tail
    ensures var n := |labels[0]|;
            && pos + 1 + n < |p| && p[pos] == n
            && p[pos + 1..pos + 1 + n] == labels[0]
            && p[pos + 1 + n..] == Wire(labels[1..]) + [0] + tail
  {
    var head := [|labels[0]|] + labels[0];
    Regroup(head, Wire(labels[1..]), [0], tail);
    Peel(p, pos, head, Wire(labels[1..]) + [0] + tail);
    HeadByte(p, pos, labels[0]);
  }

  lemma Regroup(a: seq<byte>, b: seq<byte>, c: seq<byte>, d: seq<byte>)
    ensures a + b + c + d == a + (b + c + d)
  {
  }

  lemma HeadByte(p: seq<byte>, pos: nat, text: seq<byte>)
    requires |text| < 256 && pos + 1 + |text| <= |p| && p[pos..pos + 1 + |text|] == [|text|] + text
    ensures p[pos] == |text| && p[pos + 1..pos + 1 + |text|] == text
  {
    assert p[pos] == p[pos..pos + 1 + |text|][0];
    assert p[pos + 1..pos + 1 + |text|] == p[pos..pos + 1 + |text|][1..];
  }

  lemma LengthCons(p: seq<byte>, pos: nat, n: nat)
    requires pos + 1 + n < |p| && p[pos] == n && 0 < n < 0x40 && WireLength(p, pos + 1 + n).Some?
    ensures WireLength(p, pos) == Some(1 + n + WireLength(p, pos + 1 + n).value)
  {
  }

  lemma WireCons(labels: seq<seq<byte>>)
    requires ShortLabels(labels) && labels != []
    ensures |Wire(labels)| == 1 + |labels[0]| + |Wire(labels[1..])|
  {
  }

  lemma NameCons(p: seq<byte>, pos: nat, labels: seq<seq<byte>>, turns: nat)
    requires labels != [] && 0 < |labels[0]| < 0x40
    requires pos + 1 + |labels[0]| < |p| && p[pos] == |labels[0]|
    requires p[pos + 1..pos + 1 + |labels[0]|] == labels[0]
    requires NameAt(p, pos + 1 + |labels[0]|, labels[1..], turns)
    ensures NameAt(p, pos, labels, turns + 1)
  {
  }

  lemma EmptyWireIsName(p: seq<byte>, pos: nat, tail: seq<byte>)
    requires pos <= |p| && p[pos..] == [0] + tail
    ensures NameAt(p, pos, [], 1) && WireLength(p, pos) == Some(1)
  {
    assert |p[pos..]| == |p| - pos && p[pos] == p[pos..][0];
  }

  // The wire form of these labels is at `pos`, and reads back.
  predicate Holds(p: seq<byte>, pos: nat, labels: seq<seq<byte>>)
    requires ShortLabels(labels)
  {
    NameAt(p, pos, labels, |labels| + 1) && WireLength(p, pos) == Some(|Wire(labels)| + 1)
  }

  lemma HoldsCons(p: seq<byte>, pos: nat, labels: seq<seq<byte>>)
    requires ShortLabels(labels) && labels != [] && labels[0] != []
    requires pos + 1 + |labels[0]| < |p| && p[pos] == |labels[0]|
    requires p[pos + 1..pos + 1 + |labels[0]|] == labels[0]
    requires Holds(p, pos + 1 + |labels[0]|, labels[1..])
    ensures Holds(p, pos, labels)
  {
    hide NameAt, Wire, WireLength;
    NameCons(p, pos, labels, |labels|);
    WireCons(labels);
    LengthCons(p, pos, |labels[0]|);
  }

  // A packet that holds the wire form of non-empty labels and a zero holds their name.
  lemma {:induction false} WireIsName(p: seq<byte>, pos: nat, labels: seq<seq<byte>>, tail: seq<byte>)
    requires ShortLabels(labels) && forall i | 0 <= i < |labels| :: labels[i] != []
    requires pos <= |p| && p[pos..] == Wire(labels) + [0] + tail
    ensures Holds(p, pos, labels)
    decreases |labels|
  {
    if labels == [] {
      EmptyWireIsName(p, pos, tail);
    } else {
      hide Holds, Wire;
      WirePeel(p, pos, labels, tail);
      WireIsName(p, pos + 1 + |labels[0]|, labels[1..], tail);
      HoldsCons(p, pos, labels);
    }
  }

  predicate NoEmptyLabel(name: seq<byte>) {
    forall i | 0 <= i < |Split(name)| :: Split(name)[i] != []
  }

  // The labels in front of the first empty one: all that a reader of the wire form sees.
  function Visible(labels: seq<seq<byte>>): (v: seq<seq<byte>>)
    ensures |v| <= |labels| && v == labels[..|v|]
    ensures forall i | 0 <= i < |v| :: v[i] != []
    ensures |v| < |labels| ==> labels[|v|] == []
  {
    if labels == [] || labels[0] == [] then [] else [labels[0]] + Visible(labels[1..])
  }

  lemma {:induction false} WirePrefix(labels: seq<seq<byte>>, k: nat)
    requires ShortLabels(labels) && k <= |labels|
    ensures |Wire(labels[..k])| <= |Wire(labels)| && Wire(labels[..k]) == Wire(labels)[..|Wire(labels[..k])|]
    ensures k < |labels| && labels[k] == [] ==>
              |Wire(labels[..k])| < |Wire(labels)| && Wire(labels)[|Wire(labels[..k])|] == 0
  {
    if k > 0 {
      WirePrefix(labels[1..], k - 1);
      assert labels[..k][1..] == labels[1..][..k - 1];
    }
  }

  lemma {:induction false} DottedSize(labels: seq<seq<byte>>)
    ensures |After(labels)| == |labels| + TotalSize(labels)
    ensures labels != [] ==> |Dotted(labels)| == |labels| - 1 + TotalSize(labels)
  {
    if labels != [] {
      DottedSize(labels[1..]);
    }
  }

  function TotalSize(labels: seq<seq<byte>>): nat {
    if labels == [] then 0 else |labels[0]| + TotalSize(labels[1..])
  }

  lemma {:induction false} TotalSizePrefix(labels: seq<seq<byte>>, k: nat)
    requires k <= |labels|
    ensures TotalSize(labels[..k]) <= TotalSize(labels)
  {
    if k > 0 {
      TotalSizePrefix(labels[1..], k - 1);
      assert labels[..k][1..] == labels[1..][..k - 1];
    }
  }

  /** Round trip, exactly: what the encoder wrote for `name` compares equal to `name`, at
      the encoder's own end offset, if and only if the name is non-empty and has no empty
      label; and the comparison always stops. */
  lemma {:induction false} EncodeRoundTrip(p: seq<byte>, pos: nat, name: seq<byte>)
    requires ShortLabels(Split(name))
    requires pos + |Encode(name)| <= |p| && p[pos..pos + |Encode(name)|] == Encode(name)
    ensures name != [] && NoEmptyLabel(name) <==>
            Compare(p, pos, name) == Matches(pos + |Encode(name)|)
    ensures !(name != [] && NoEmptyLabel(name)) ==> Compare(p, pos, name) == Differs
    ensures name != [] ==> Stops(p, name, Start(pos))
  {
    hide NameAt, Split, Visible, Dotted, WireLength, Run;
    var seen := Visible(Split(name));
    EncodedName(p, pos, name);
    CompareIsDenotation(p, pos, name);
    DottedSplit(name);
    if NoEmptyLabel(name) {
      assert seen == Split(name);
    } else {
      ShorterThanName(name);
      forall other, turns: nat | NameAt(p, pos, other, turns) ensures Dotted(other) != name || name == [] {
        NameUnique(p, pos, seen, |seen| + 1, other, turns);
      }
    }
    if name != [] {
      NameStops(p, name, Start(pos), seen, |seen| + 1);
      CompareIsRun(p, pos, name, |seen| + 1);
    }
  }

  // What a reader finds where `name` was encoded.
  lemma EncodedName(p: seq<byte>, pos: nat, name: seq<byte>)
    requires ShortLabels(Split(name))
    requires pos + |Encode(name)| <= |p| && p[pos..pos + |Encode(name)|] == Encode(name)
    ensures var seen := Visible(Split(name)); NameAt(p, pos, seen, |seen| + 1)
    ensures NoEmptyLabel(name) ==> WireLength(p, pos) == Some(|Encode(name)|)
  {
    var tail := EncodedBytes(p, pos, name);
    WireIsName(p, pos, Visible(Split(name)), tail);
    if NoEmptyLabel(name) {
      assert Visible(Split(name)) == Split(name);
    }
  }

  lemma EncodedBytes(p: seq<byte>, pos: nat, name: seq<byte>) returns (tail: seq<byte>)
    requires ShortLabels(Split(name))
    requires pos + |Encode(name)| <= |p| && p[pos..pos + |Encode(name)|] == Encode(name)
    ensures p[pos..] == Wire(Visible(Split(name))) + [0] + tail
  {
    var shown := Wire(Visible(Split(name))) + [0];
    var hidden := VisibleEncoding(name);
    var beyond := p[pos + |Encode(name)|..];
    tail := hidden + beyond;
    assert p[pos..] == p[pos..pos + |Encode(name)|] + beyond;
    assert shown + hidden + beyond == shown + tail;
  }

  lemma VisibleEncoding(name: seq<byte>) returns (tail: seq<byte>)
    requires ShortLabels(Split(name))
    ensures Encode(name) == Wire(Visible(Split(name))) + [0] + tail
  {
    var labels := Split(name);
    var shown := Wire(Visible(labels));
    WirePrefix(labels, |Visible(labels)|);
    assert labels[..|labels|] == labels;
    tail := Encode(name)[|shown| + 1..];
    assert Encode(name)[..|shown|] == shown && Encode(name)[|shown|] == 0;
  }

  lemma {:induction false} ShorterThanName(name: seq<byte>)
    requires !NoEmptyLabel(name)
    ensures Dotted(Visible(Split(name))) != name || name == []
  {
    var labels := Split(name);
    var seen := Visible(labels);
    DottedSplit(name);
    DottedSize(labels);
    DottedSize(seen);
    TotalSizePrefix(labels, |seen|);
    assert |seen| < |labels|;
  }

  // A walk along a name that ends stops, whatever it is compared with.
  lemma {:induction false} NameStops(p: seq<byte>, name: seq<byte>, w: Walk, labels: seq<seq<byte>>, turns: nat)
    requires WalkOk(p, name, w) && NameAt(p, w.pos, labels, turns)
    ensures Run(p, name, w, turns).Some?
    decreases turns
  {
    var t := Step(p, name, w);
    if t.Go? {
      NameStops(p, name, t.next, if p[w.pos] >= 0xC0 then labels else labels[1..], turns - 1);
    }
  }

  // ---------- The loops ----------

  // The inner loop of dns_name_compare.
  method SameBytes(data: array<byte>, from: nat, name: seq<byte>, at: nat, length: nat) returns (same: bool)
    requires from + length <= data.Length && at + length <= |name|
    ensures same <==> data[from..from + length] == name[at..at + length]
  {
    var pcmp, pname, len := from, at, length;
    while len > 0
      invariant 0 <= len <= length && pcmp == from + (length - len) && pname == at + (length - len)
      invariant data[from..pcmp] == name[at..pname]
    {
      len := len - 1;
      if data[pcmp] != name[pname] {
        assert data[from..from + length][pcmp - from] != name[at..at + length][pcmp - from];
        return false;
      }
      assert data[from..pcmp + 1] == data[from..pcmp] + [data[pcmp]];
      assert name[at..pname + 1] == name[at..pname] + [name[pname]];
      pcmp, pname := pcmp + 1, pname + 1;
    }
    return true;
  }

  // The turn of dns_name_compare that reads a label.
  method LabelTurn(data: array<byte>, size: nat, pos: nat, name: seq<byte>, matched: nat, ghost end: Option<nat>)
    returns (same: bool, pcmp: nat, pname: nat)
    requires pos < size <= data.Length && matched <= |name| && 0 < data[pos] < 0x40
    ensures Step(data[..size], name, Walk(pos, matched, end)) ==
            if same then Go(Walk(pcmp, pname, end)) else Done(None)
  {
    pcmp, pname := pos, matched;
    var len := data[pcmp];
    pcmp := pcmp + 1;
    if pcmp + len + 1 > size {
      return false, pcmp, pname;
    }
    if pname != 0 {
      // One past the name's end the byte read is whatever lies there in memory.
      var c: byte := *;
      if pname < |name| {
        c := name[pname];
      }
      pname := pname + 1;
      if c != DOT {
        return false, pcmp, pname;
      }
    }
    if pname + len > |name| {
      return false, pcmp, pname;
    }
    assert data[..size][..pcmp + len] == data[..pcmp + len];
    same := SameBytes(data, pcmp, name, pname, len);
    return same, pcmp + len, pname + len;
  }

  lemma RunUnfolds(p: seq<byte>, name: seq<byte>, w: Walk, fuel: nat)
    requires WalkOk(p, name, w)
    ensures fuel > 0 ==> match Step(p, name, w)
                         case Done(result) => Run(p, name, w, fuel) == Some(result)
                         case Go(next) => Run(p, name, w, fuel) == Run(p, name, next, fuel - 1)
  {
  }

  lemma RunTurn(p: seq<byte>, name: seq<byte>, w: Walk, fuel: nat)
    requires WalkOk(p, name, w) && Run(p, name, w, fuel).Some?
    ensures fuel > 0
    ensures match Step(p, name, w)
            case Done(result) => Run(p, name, w, fuel) == Some(result)
            case Go(next) => Run(p, name, w, fuel) == Run(p, name, next, fuel - 1)
  {
  }

  // The loop of dns_name_compare; `fuel` turns are enough to leave it.
  method WalkLoop(data: array<byte>, size: nat, offset: nat, name: seq<byte>, ghost fuel: nat)
    returns (ok: bool, end: nat)
    requires offset < size <= data.Length && Run(data[..size], name, Start(offset), fuel).Some?
    ensures Run(data[..size], name, Start(offset), fuel) == Some(if ok then Some(end) else None)
  {
    hide Run;
    end := offset;
    ghost var p, result, left := data[..size], Run(data[..size], name, Start(offset), fuel), fuel;
    var pcmp: nat, pname: nat := offset, 0;
    var stop: Option<nat> := None;
    while true
      invariant WalkOk(p, name, Walk(pcmp, pname, stop)) && p == data[..size]
      invariant Run(p, name, Walk(pcmp, pname, stop), left) == result
      decreases left
    {
      var b := data[pcmp];
      assert p[pcmp] == b;
      RunTurn(p, name, Walk(pcmp, pname, stop), left);
      if b == 0 {
        break;
      } else if b >= 0xC0 {
        if pcmp + 2 > size {
          return false, end;
        }
        if stop == None {
          stop := Some(pcmp + 1);
        }
        var high: int := data[pcmp];
        var off := 256 * (high - 0xC0) + data[pcmp + 1];
        assert off == Target(p, pcmp);
        if off + 1 > size {
          return false, end;
        }
        pcmp := off;
      } else if b < 0x40 {
        var same, q, n := LabelTurn(data, size, pcmp, name, pname, stop);
        if !same {
          return false, end;
        }
        pcmp, pname := q, n;
      } else {
        return false, end;
      }
      left := left - 1;
    }
    if pname != |name| {
      return false, end;
    }
    if stop == None {
      stop := Some(pcmp);
    }
    return true, stop.value + 1;
  }

  // dns_name_compare.  It is only called where it stops: elsewhere the C code hangs.
  method NameCompare(data: array<byte>, size: nat, offset: nat, name: seq<byte>) returns (ok: bool, end: nat)
    requires size <= data.Length
    requires Compare(data[..size], offset, name) != Diverges
    ensures Compare(data[..size], offset, name) == if ok then Matches(end) else Differs
    ensures !ok ==> end == offset
  {
    if offset + 1 > size {
      return false, offset;
    }
    if |name| == 0 {
      return false, offset;
    }
    ghost var fuel: nat :| Run(data[..size], name, Start(offset), fuel).Some?;
    CompareIsRun(data[..size], offset, name, fuel);
    ok, end := WalkLoop(data, size, offset, name, fuel);
    if !ok {
      end := offset;
    }
  }

  // dns_name_len
  method NameLen(data: array<byte>, size: nat, offset: nat) returns (r: int)
    requires size <= data.Length
    ensures r == var l := WireLength(data[..size], offset); if l.Some? then l.value else -1
  {
    if offset + 1 > size {
      return -1;
    }
    ghost var p := data[..size];
    ghost var whole := WireLength(p, offset);
    var pcmp := offset;
    while true
      invariant offset <= pcmp < size
      invariant whole.Some? <==> WireLength(p, pcmp).Some?
      invariant whole.Some? ==> whole.value == pcmp - offset + WireLength(p, pcmp).value
      decreases size - pcmp
    {
      var b := data[pcmp];
      if b == 0 {
        break;
      } else if b >= 0xC0 {
        if pcmp + 2 > size {
          return -1;
        }
        return pcmp + 2 - offset;
      } else if b < 0x40 {
        pcmp := pcmp + 1;
        if pcmp + b + 1 > size {
          return -1;
        }
        pcmp := pcmp + b;
      } else {
        return -1;
      }
    }
    return pcmp + 1 - offset;
  }

  const PACKET_SIZE := 512

  // *plen = count: the label in progress gets its length byte.
  method CloseLabel(data: array<byte>, offset: nat, plen: nat, pdat: nat,
                    ghost done: seq<seq<byte>>, ghost current: seq<byte>)
    requires offset <= plen < pdat <= data.Length
    requires ShortLabels(done) && |current| <= 63 && pdat == plen + 1 + |current|
    requires data[offset..plen] == Wire(done) && data[plen + 1..pdat] == current
    modifies data
    ensures ShortLabels(done + [current]) && data[offset..pdat] == Wire(done + [current])
    ensures data[..offset] == old(data[..offset])
    ensures forall k | pdat <= k < data.Length :: data[k] == old(data[k])
  {
    data[plen] := pdat - plen - 1;
    assert data[offset..pdat] == data[offset..plen] + [data[plen]] + data[plen + 1..pdat];
    WireSnoc(done, current);
  }

  // dns_make_name: succeeds exactly when every label has at most 63 bytes and the name
  // fits the packet.
  method MakeName(data: array<byte>, offset: nat, name: seq<byte>) returns (ok: bool, end: nat)
    requires data.Length == PACKET_SIZE && offset < PACKET_SIZE
    modifies data
    ensures ok <==> ShortLabels(Split(name)) && offset + |name| + 2 <= PACKET_SIZE
    ensures data[..offset] == old(data[..offset])
    ensures if ok then end == offset + |name| + 2 && data[offset..end] == Encode(name) else end == offset
    ensures ok ==> data[end..] == old(data[end..])
  {
    hide Split;
    SplitNothing();
    end := offset;
    var plen: nat, pdat: nat, count: nat := offset, offset + 1, 0;
    ghost var done: seq<seq<byte>>, current: seq<byte> := [], [];
    var i := 0;
    while i < |name|
      invariant 0 <= i <= |name| && Split(name[..i]) == done + [current]
      invariant ShortLabels(done) && count == |current| <= 63
      invariant pdat == offset + 1 + i == plen + 1 + count <= PACKET_SIZE && offset <= plen
      invariant data[offset..plen] == Wire(done) && data[plen + 1..pdat] == current
      invariant data[..offset] == old(data[..offset]) && forall k | pdat <= k < PACKET_SIZE :: data[k] == old(data[k])
    {
      if pdat + 1 > PACKET_SIZE {
        return false, end;
      }
      var c := name[i];
      SplitNext(name, i, done, current);
      if c == DOT {
        CloseLabel(data, offset, plen, pdat, done, current);
        done, current := done + [current], [];
        count := 0;
        plen, pdat := pdat, pdat + 1;
      } else {
        if count >= 63 {
          return false, end;
        }
        count := count + 1;
        data[pdat] := c;
        assert data[plen + 1..pdat + 1] == current + [c];
        pdat := pdat + 1;
        current := current + [c];
      }
      i := i + 1;
    }
    assert name[..i] == name;
    if pdat + 1 > PACKET_SIZE {
      return false, end;
    }
    CloseLabel(data, offset, plen, pdat, done, current);
    data[pdat] := 0;
    assert data[offset..pdat + 1] == data[offset..pdat] + [0];
    return true, pdat + 1;
  }

  lemma SplitNothing()
    ensures Split([]) == [[]]
  {
  }

  // One more character of the name, as the encoder sees it.
  lemma SplitNext(name: seq<byte>, i: nat, done: seq<seq<byte>>, current: seq<byte>)
    requires i < |name| && Split(name[..i]) == done + [current]
    ensures name[i] == DOT ==> Split(name[..i + 1]) == done + [current] + [[]]
    ensures name[i] != DOT ==> Split(name[..i + 1]) == done + [current + [name[i]]]
    ensures name[i] != DOT && |current| >= 63 ==> !ShortLabels(Split(name))
  {
    hide Split, Glue, ShortLabels;
    assert name[..i + 1] == name[..i] + [name[i]];
    SplitAppend(name[..i], [name[i]]);
    if name[i] == DOT {
      GlueDot(done, current);
    } else {
      GlueLetter(done, current, name[i]);
      SplitGrows(name, i + 1, done, current + [name[i]]);
      LongLabel(Split(name), |done|);
    }
  }

  lemma GlueDot(done: seq<seq<byte>>, current: seq<byte>)
    ensures Glue(done + [current], Split([DOT])) == done + [current] + [[]]
  {
    hide Split, Glue;
    var m := SplitOne(DOT);
    GlueLast(done, current, m);
    assert current + m[0] == current && m[1..] == [[]];
  }

  lemma GlueLetter(done: seq<seq<byte>>, current: seq<byte>, c: byte)
    requires c != DOT
    ensures Glue(done + [current], Split([c])) == done + [current + [c]]
  {
    hide Split, Glue;
    var m := SplitOne(c);
    GlueLast(done, current, m);
    assert m[1..] == [];
  }

  lemma LongLabel(labels: seq<seq<byte>>, i: nat)
    requires i < |labels|
    ensures |labels[i]| > 63 ==> !ShortLabels(labels)
  {
  }

  lemma SplitOne(c: byte) returns (m: seq<seq<byte>>)
    ensures m == Split([c]) && m == if c == DOT then [[], []] else [[c]]
  {
    m := Split([c]);
    var empty: seq<byte> := [];
    assert [c][1..] == empty && Split(empty) == [empty];
    assert [c] + empty == [c] && [empty][1..] == [];
  }

  lemma SplitGrows(name: seq<byte>, i: nat, done: seq<seq<byte>>, current: seq<byte>)
    requires i <= |name| && Split(name[..i]) == done + [current]
    ensures |Split(name)| > |done| && |Split(name)[|done|]| >= |current|
  {
    assert name == name[..i] + name[i..];
    SplitAppend(name[..i], name[i..]);
    GlueLast(done, current, Split(name[i..]));
  }
}
