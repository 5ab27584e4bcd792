/** The scan of rust_init_freemem (kernel/src/boot/mm.rs): reserved memory is taken out of the available
    memory, piece by piece, while the table of reserved memory is filled. */
module BootFreemem {
  import opened BootRegions

  /** Ascending; regions may be empty and may touch. */
  predicate AscendAt(rs: seq<Region>, i: nat) {
    i < |rs| ==> rs[i].start <= rs[i].end && (i + 1 < |rs| ==> rs[i].end <= rs[i + 1].start)
  }

  ghost predicate Ascending(rs: seq<Region>) {
    forall i {:trigger AscendAt(rs, i)} :: 0 <= i < |rs| ==> AscendAt(rs, i)
  }

  /** The first region of an ascending list lies below all others. */
  lemma {:induction false} HeadBelow(rs: seq<Region>, x: nat)
    requires Ascending(rs) && rs != []
    ensures rs[0].start <= rs[0].end
    ensures Has(rs[1..], x) ==> rs[0].end <= x
    ensures Ascending(rs[1..])
    decreases |rs|
  {
    assert AscendAt(rs, 0);
    var t := rs[1..];
    forall i | 0 <= i < |t|
      ensures AscendAt(t, i)
    {
      assert AscendAt(rs, i + 1);
    }
    if t != [] {
      HeadBelow(t, x);
      HasHead(t, x);
    }
  }

  lemma HasHead(rs: seq<Region>, x: nat)
    requires rs != []
    ensures Has(rs, x) <==> InRegion(rs[0], x) || Has(rs[1..], x)
  {
    if Has(rs, x) {
      var i :| 0 <= i < |rs| && InRegion(rs[i], x);
      if i > 0 { assert InRegion(rs[1..][i - 1], x); }
    }
    if Has(rs[1..], x) {
      var i :| 0 <= i < |rs[1..]| && InRegion(rs[1..][i], x);
      assert InRegion(rs[i + 1], x);
    }
  }

  lemma HasLast(rs: seq<Region>, r: Region, x: nat)
    ensures Has(rs + [r], x) <==> Has(rs, x) || InRegion(r, x)
  {
    var s := rs + [r];
    if Has(s, x) {
      var i :| 0 <= i < |s| && InRegion(s[i], x);
      if i < |rs| { assert InRegion(rs[i], x); }
    }
    if Has(rs, x) {
      var i :| 0 <= i < |rs| && InRegion(rs[i], x);
      assert InRegion(s[i], x);
    }
    if InRegion(r, x) { assert InRegion(s[|rs|], x); }
  }

  /** Address x belongs to what is found so far or to what is left to look at. */
  predicate Accounted(free: seq<Region>, rest: seq<Region>, pend: seq<Region>, x: nat) {
    Has(free, x) || (Has(rest, x) && !Has(pend, x))
  }

  /** Every region starts at or before its end. */
  ghost predicate Proper(rs: seq<Region>) {
    forall i :: 0 <= i < |rs| ==> rs[i].start <= rs[i].end
  }

  /** The scan is done with reserved region k when it is done with available region i: k ends before i does, or the two
      meet and nothing of i right below k is free. */
  predicate Drops(rest: seq<Region>, pend: seq<Region>, k: nat, i: nat) {
    && k < |pend| && i < |rest| && pend[k].start < pend[k].end && rest[i].start < rest[i].end
    && (pend[k].end < rest[i].end
        || (Meets(pend[k], rest[i]) && (pend[k].start <= rest[i].start || Has(pend, pend[k].start - 1))))
  }

  /** Then k is forgotten when a later available region j turns out to meet it. */
  predicate Bad(rest: seq<Region>, pend: seq<Region>, k: nat, i: nat, j: nat) {
    i < j < |rest| && Drops(rest, pend, k, i) && Meets(pend[k], rest[j])
  }

  ghost predicate NoBad(rest: seq<Region>, pend: seq<Region>) {
    forall k: nat, i: nat, j: nat :: !Bad(rest, pend, k, i, j)
  }

  /** insert_region: an empty region is dropped. */
  function Kept(free: seq<Region>, r: Region): (f: seq<Region>) {
    if r.start == r.end then free else free + [r]
  }

  /** One turn of the scan: what is free, the available regions left, the reserved regions left. */
  function Turn(free: seq<Region>, rest: seq<Region>, pend: seq<Region>): (t: (seq<Region>, seq<Region>, seq<Region>))
    requires rest != [] && pend != [] && rest[0].start <= rest[0].end
  {
    var h, p := rest[0], pend[0];
    if p.start == p.end then (free, rest, pend[1..])
    else if h.start >= h.end then (free, rest[1..], pend)
    else if p.end <= h.start then (free, rest, pend[1..])
    else if p.start >= h.end then (Kept(free, h), rest[1..], pend)
    else if p.start <= h.start then
      (free, [Region(if h.end < p.end then h.end else p.end, h.end)] + rest[1..], pend[1..])
    else if h.end > p.end then (Kept(free, Region(h.start, p.start)), [Region(p.end, h.end)] + rest[1..], pend[1..])
    else (Kept(free, Region(h.start, p.start)), rest[1..], pend)
  }

  lemma KeptHas(free: seq<Region>, r: Region, x: nat)
    ensures Has(Kept(free, r), x) <==> Has(free, x) || InRegion(r, x)
  {
    HasLast(free, r, x);
  }

  /** The scan is done with the first reserved region, which reaches a later available one. */
  predicate Spills(rest: seq<Region>, pend: seq<Region>)
    requires rest != [] && pend != [] && rest[0].start <= rest[0].end
  {
    Turn([], rest, pend).2 != pend && exists j :: 1 <= j < |rest| && Meets(pend[0], rest[j])
  }

  /** A turn loses no address, and invents none unless it spills. */
  lemma TurnAccounts(free: seq<Region>, rest: seq<Region>, pend: seq<Region>, x: nat)
    requires rest != [] && pend != [] && Ascending(pend) && rest[0].start <= rest[0].end
    ensures var t := Turn(free, rest, pend); Accounted(free, rest, pend, x) ==> Accounted(t.0, t.1, t.2, x)
    ensures
      var t := Turn(free, rest, pend);
      !Spills(rest, pend) && Accounted(t.0, t.1, t.2, x) ==> Accounted(free, rest, pend, x)
  {
    var h, p := rest[0], pend[0];
    HeadBelow(pend, x);
    HasHead(rest, x);
    HasHead(pend, x);
    KeptHas(free, h, x);
    KeptHas(free, Region(h.start, p.start), x);
    var low := Region(if h.end < p.end then h.end else p.end, h.end);
    HasHead([low] + rest[1..], x);
    HasHead([Region(p.end, h.end)] + rest[1..], x);
    assert ([low] + rest[1..])[1..] == rest[1..] && ([Region(p.end, h.end)] + rest[1..])[1..] == rest[1..];
    if Has(rest[1..], x) && InRegion(p, x) { MeetsLater(rest, pend, x); }
  }

  lemma MeetsLater(rest: seq<Region>, pend: seq<Region>, x: nat)
    requires rest != [] && pend != [] && rest[0].start <= rest[0].end && InRegion(pend[0], x) && Has(rest[1..], x)
    ensures Turn([], rest, pend).2 != pend ==> Spills(rest, pend)
  {
    var i :| 0 <= i < |rest[1..]| && InRegion(rest[1..][i], x);
    assert Meets(pend[0], rest[i + 1]);
  }

  lemma TurnProper(free: seq<Region>, rest: seq<Region>, pend: seq<Region>)
    requires rest != [] && pend != [] && Proper(rest) && Ascending(pend)
    ensures var t := Turn(free, rest, pend); Proper(t.1) && Ascending(t.2)
  {
    HeadBelow(pend, 0);
  }

  lemma TurnAscends(free: seq<Region>, rest: seq<Region>, pend: seq<Region>)
    requires rest != [] && pend != [] && Ascending(rest) && Ascending(pend) && rest[0].start <= rest[0].end
    ensures var t := Turn(free, rest, pend); Ascending(t.1) && Ascending(t.2)
  {
    HeadBelow(rest, 0);
    HeadBelow(pend, 0);
    var t := Turn(free, rest, pend);
    assert AscendAt(rest, 0);
    forall i | 0 <= i < |t.1|
      ensures AscendAt(t.1, i)
    {
      assert AscendAt(rest, i) && AscendAt(rest[1..], i);
    }
  }

  /** Nothing that is found is still to be taken out. */
  ghost predicate FreeClear(free: seq<Region>, pend: seq<Region>) {
    forall x: nat :: Has(free, x) ==> !Has(pend, x)
  }

  lemma TurnClear(free: seq<Region>, rest: seq<Region>, pend: seq<Region>)
    requires rest != [] && pend != [] && Ascending(pend) && rest[0].start <= rest[0].end && FreeClear(free, pend)
    ensures var t := Turn(free, rest, pend); FreeClear(t.0, t.2)
  {
    var t := Turn(free, rest, pend);
    forall x: nat | Has(t.0, x)
      ensures !Has(t.2, x)
    {
      var h, p := rest[0], pend[0];
      HeadBelow(pend, x);
      HasHead(pend, x);
      KeptHas(free, h, x);
      KeptHas(free, Region(h.start, p.start), x);
    }
  }

  function Scan(free: seq<Region>, rest: seq<Region>, pend: seq<Region>): (f: seq<Region>)
    requires forall i :: 0 <= i < |rest| ==> rest[i].start <= rest[i].end
    decreases |rest| + |pend|
  {
    if rest == [] then free
    else if pend == [] then Scan(Kept(free, rest[0]), rest[1..], pend)
    else
      var t := Turn(free, rest, pend);
      Scan(t.0, t.1, t.2)
  }

  // ---- when the scan is exact ----

  /** The scan finds exactly the available addresses that are not reserved. */
  ghost predicate ExactScan(free: seq<Region>, rest: seq<Region>, pend: seq<Region>)
    requires forall i :: 0 <= i < |rest| ==> rest[i].start <= rest[i].end
  {
    forall x: nat :: Has(Scan(free, rest, pend), x) <==> Accounted(free, rest, pend, x)
  }

  /** The scan never loses an address. */
  lemma {:induction false} ScanKeeps(free: seq<Region>, rest: seq<Region>, pend: seq<Region>, x: nat)
    requires Proper(rest) && Ascending(pend) && Accounted(free, rest, pend, x)
    ensures Has(Scan(free, rest, pend), x)
    decreases |rest| + |pend|
  {
    if rest != [] {
      if pend == [] {
        HasHead(rest, x);
        KeptHas(free, rest[0], x);
        ScanKeeps(Kept(free, rest[0]), rest[1..], pend, x);
      } else {
        TurnAccounts(free, rest, pend, x);
        TurnProper(free, rest, pend);
        var t := Turn(free, rest, pend);
        ScanKeeps(t.0, t.1, t.2, x);
      }
    }
  }

  /** Without reserved regions left, everything is taken. */
  lemma {:induction false} ScanRest(free: seq<Region>, rest: seq<Region>, x: nat)
    requires Proper(rest)
    ensures Has(Scan(free, rest, []), x) <==> Has(free, x) || Has(rest, x)
    decreases |rest|
  {
    if rest != [] {
      HasHead(rest, x);
      KeptHas(free, rest[0], x);
      ScanRest(Kept(free, rest[0]), rest[1..], x);
    }
  }

  /** A spill is a bad triple, and ruins the result. */
  lemma SpillRuins(free: seq<Region>, rest: seq<Region>, pend: seq<Region>)
    requires rest != [] && pend != [] && Proper(rest) && Ascending(pend) && FreeClear(free, pend)
    requires Spills(rest, pend)
    ensures !NoBad(rest, pend) && !ExactScan(free, rest, pend)
  {
    var h, p := rest[0], pend[0];
    var j :| 1 <= j < |rest| && Meets(p, rest[j]);
    assert Bad(rest, pend, 0, 0, j);
    var x := if rest[j].start < p.start then p.start else rest[j].start;
    assert InRegion(rest[j], x) && InRegion(rest[1..][j - 1], x) && InRegion(p, x);
    HasHead(rest, x);
    HasHead(pend, x);
    HeadBelow(pend, x);
    var t := Turn(free, rest, pend);
    HasHead(t.1, x);
    assert t.1[1..] == rest[1..];
    assert Accounted(t.0, t.1, t.2, x);
    TurnProper(free, rest, pend);
    ScanKeeps(t.0, t.1, t.2, x);
    assert Scan(free, rest, pend) == Scan(t.0, t.1, t.2);
    assert !Accounted(free, rest, pend, x);
  }

  /** Without a spill a turn keeps the bad triples, apart from counting. */
  lemma TurnKeepsBad(free: seq<Region>, rest: seq<Region>, pend: seq<Region>)
    requires rest != [] && pend != [] && Ascending(pend) && rest[0].start <= rest[0].end && !Spills(rest, pend)
    ensures var t := Turn(free, rest, pend); NoBad(rest, pend) <==> NoBad(t.1, t.2)
  {
    var t := Turn(free, rest, pend);
    if !NoBad(t.1, t.2) {
      var k: nat, i: nat, j: nat :| Bad(t.1, t.2, k, i, j);
      BadBefore(free, rest, pend, k, i, j);
    }
    if !NoBad(rest, pend) {
      var k: nat, i: nat, j: nat :| Bad(rest, pend, k, i, j);
      BadAfter(free, rest, pend, k, i, j);
    }
  }

  /** Order among distant elements. */
  lemma {:induction false} AscendingPair(rs: seq<Region>, i: nat, j: nat)
    requires Ascending(rs) && i < j < |rs|
    ensures rs[i].start <= rs[i].end <= rs[j].start <= rs[j].end
    decreases j - i
  {
    assert AscendAt(rs, i) && AscendAt(rs, j);
    if i + 1 < j { AscendingPair(rs, i + 1, j); }
  }

  lemma BadBefore(free: seq<Region>, rest: seq<Region>, pend: seq<Region>, k: nat, i: nat, j: nat)
    requires rest != [] && pend != [] && Ascending(pend) && rest[0].start <= rest[0].end && !Spills(rest, pend)
    requires var t := Turn(free, rest, pend); Bad(t.1, t.2, k, i, j)
    ensures
      var t := Turn(free, rest, pend);
      Bad(rest, pend, k + |pend| - |t.2|, i + |rest| - |t.1|, j + |rest| - |t.1|)
  {
    var t := Turn(free, rest, pend);
    var k0, i0, j0 := k + |pend| - |t.2|, i + |rest| - |t.1|, j + |rest| - |t.1|;
    assert pend[k0] == t.2[k] && rest[j0] == t.1[j];
    if pend[k0].start > 0 { HasHead(pend, pend[k0].start - 1); }
    if k0 > 0 { AscendingPair(pend, 0, k0); }
  }

  lemma BadAfter(free: seq<Region>, rest: seq<Region>, pend: seq<Region>, k: nat, i: nat, j: nat)
    requires rest != [] && pend != [] && Ascending(pend) && rest[0].start <= rest[0].end && !Spills(rest, pend)
    requires Bad(rest, pend, k, i, j)
    ensures var t := Turn(free, rest, pend); !NoBad(t.1, t.2)
  {
    var t := Turn(free, rest, pend);
    var dp, dr := |pend| - |t.2|, |rest| - |t.1|;
    NotDropped(free, rest, pend, k, i, j);
    assert t.2[k - dp] == pend[k] && t.1[j - dr] == rest[j];
    if k > 0 { AscendingPair(pend, 0, k); }
    if pend[k].start > 0 {
      HasHead(pend, pend[k].start - 1);
      if i > 0 && InRegion(pend[0], pend[k].start - 1) && InRegion(rest[i], pend[k].start - 1) {
        assert Meets(pend[0], rest[i]);
      }
    }
    assert Bad(t.1, t.2, k - dp, i - dr, j - dr);
  }

  /** The regions of a bad triple are not the ones a turn is done with. */
  lemma NotDropped(free: seq<Region>, rest: seq<Region>, pend: seq<Region>, k: nat, i: nat, j: nat)
    requires rest != [] && pend != [] && Ascending(pend) && rest[0].start <= rest[0].end && !Spills(rest, pend)
    requires Bad(rest, pend, k, i, j)
    ensures var t := Turn(free, rest, pend); k >= |pend| - |t.2| && i >= |rest| - |t.1|
  {
    var p := pend[0];
    if k > 0 { AscendingPair(pend, 0, k); }
    if p.start > 0 { HeadBelow(pend, p.start - 1); HasHead(pend, p.start - 1); }
  }

  /** rust_init_freemem's scan finds exactly the available memory that is not reserved if and only if it is never done
      with a reserved region that meets a later available one. */
  lemma {:induction false} ScanExactIff(free: seq<Region>, rest: seq<Region>, pend: seq<Region>)
    requires Proper(rest) && Ascending(pend) && FreeClear(free, pend)
    ensures ExactScan(free, rest, pend) <==> NoBad(rest, pend)
    decreases |rest| + |pend|
  {
    if rest == [] {
    } else if pend == [] {
      forall x: nat
        ensures Has(Scan(free, rest, pend), x) <==> Accounted(free, rest, pend, x)
      {
        ScanRest(free, rest, x);
      }
    } else if Spills(rest, pend) {
      SpillRuins(free, rest, pend);
    } else {
      var t := Turn(free, rest, pend);
      TurnProper(free, rest, pend);
      TurnClear(free, rest, pend);
      TurnKeepsBad(free, rest, pend);
      ScanExactIff(t.0, t.1, t.2);
      forall x: nat
        ensures Accounted(t.0, t.1, t.2, x) <==> Accounted(free, rest, pend, x)
      {
        TurnAccounts(free, rest, pend, x);
      }
    }
  }

  /** In ascending available memory that takes a reserved region which reaches from one available region, of which
      nothing right below it is free, into a later one. */
  lemma AscendingBad(rest: seq<Region>, pend: seq<Region>, k: nat, i: nat, j: nat)
    requires Ascending(rest)
    ensures Bad(rest, pend, k, i, j) <==>
      && k < |pend| && i < j < |rest| && Meets(pend[k], rest[i]) && Meets(pend[k], rest[j])
      && (pend[k].start <= rest[i].start || Has(pend, pend[k].start - 1))
  {
    if i < j < |rest| { AscendingPair(rest, i, j); }
  }

  // ---- the loop with the table of reserved memory ----

  /** Free regions are ascending and end below what is left. */
  ghost predicate FreeOrdered(free: seq<Region>, rest: seq<Region>) {
    Ordered(free) && (free != [] && rest != [] ==> free[|free| - 1].end <= rest[0].start)
  }

  lemma KeptOrdered(free: seq<Region>, r: Region)
    requires Ordered(free) && r.start <= r.end && (free != [] ==> free[|free| - 1].end <= r.start)
    ensures Ordered(Kept(free, r))
  {
    var f := Kept(free, r);
    forall i | 0 <= i < |f|
      ensures OrderAt(f, i)
    {
      assert OrderAt(free, i);
    }
  }

  lemma TurnOrdered(free: seq<Region>, rest: seq<Region>, pend: seq<Region>)
    requires rest != [] && pend != [] && Ascending(rest) && Ascending(pend) && rest[0].start <= rest[0].end
    requires FreeOrdered(free, rest)
    ensures var t := Turn(free, rest, pend); FreeOrdered(t.0, t.1)
  {
    var h, p := rest[0], pend[0];
    assert AscendAt(rest, 0) && AscendAt(pend, 0);
    KeptOrdered(free, h);
    if h.start <= p.start { KeptOrdered(free, Region(h.start, p.start)); }
  }

  /** No two regions of the list share an address. */
  ghost predicate NoneMeet(rs: seq<Region>) {
    forall i, j :: 0 <= i < j < |rs| ==> !Meets(rs[i], rs[j])
  }

  /** No region of one list shares an address with one of the other. */
  ghost predicate Separated(free: seq<Region>, rest: seq<Region>) {
    forall i, j :: 0 <= i < |free| && 0 <= j < |rest| ==> !Meets(free[i], rest[j])
  }

  lemma KeptDisjoint(free: seq<Region>, r: Region, rest: seq<Region>)
    requires NoneMeet(free) && Separated(free, rest) && forall i :: 0 <= i < |free| ==> !Meets(free[i], r)
    requires forall j :: 0 <= j < |rest| ==> !Meets(r, rest[j])
    ensures NoneMeet(Kept(free, r)) && Separated(Kept(free, r), rest)
  {
  }

  /** Disjoint available memory gives disjoint free regions. */
  lemma TurnDisjoint(free: seq<Region>, rest: seq<Region>, pend: seq<Region>)
    requires rest != [] && pend != [] && rest[0].start <= rest[0].end && pend[0].start <= pend[0].end
    requires NoneMeet(free) && NoneMeet(rest) && Separated(free, rest)
    ensures var t := Turn(free, rest, pend); NoneMeet(t.0) && NoneMeet(t.1) && Separated(t.0, t.1)
  {
    var h, p := rest[0], pend[0];
    var t := Turn(free, rest, pend);
    if |t.1| == |rest| {
      assert t.1[1..] == rest[1..];
      forall j | 0 <= j < |t.1|
        ensures (forall i :: 0 <= i < |free| ==> !Meets(free[i], t.1[j])) && (j > 0 ==> !Meets(t.1[0], t.1[j]))
      {
        if j > 0 { assert t.1[j] == t.1[1..][j - 1] == rest[j] && !Meets(rest[0], rest[j]); }
      }
    }
    forall i, j | 0 <= i < j < |t.1|
      ensures !Meets(t.1[i], t.1[j])
    {
      if |t.1| == |rest| && i > 0 {
        assert t.1[i] == t.1[1..][i - 1] == rest[i] && t.1[j] == t.1[1..][j - 1] == rest[j];
      }
    }
    if t.0 != free {
      var r := if p.start >= h.end then h else Region(h.start, p.start);
      assert t.0 == Kept(free, r);
      forall j | 0 <= j < |t.1|
        ensures !Meets(r, t.1[j])
      {
        if |t.1| < |rest| {
          assert t.1[j] == rest[j + 1];
        } else if j > 0 {
          assert t.1[j] == t.1[1..][j - 1] == rest[j];
        }
      }
      KeptDisjoint(free, r, t.1);
    }
  }

  lemma AscendingDisjoint(rs: seq<Region>)
    requires Ascending(rs)
    ensures NoneMeet(rs)
  {
    forall i, j | 0 <= i < j < |rs|
      ensures !Meets(rs[i], rs[j])
    {
      AscendingPair(rs, i, j);
    }
  }

  /** Some free address is reserved. */
  ghost predicate Share(free: seq<Region>, done: seq<Region>) {
    exists x: nat :: Has(free, x) && Has(done, x)
  }

  /** No address went into the table twice. */
  ghost predicate Once(free: seq<Region>, done: seq<Region>) {
    NoneMeet(free) && !Share(free, done)
  }

  /** The table after the free regions and the reserved regions `done` went in: unless there were more of
      them than it can hold, it has exactly their addresses, and is gap-separated exactly if they share none. */
  ghost predicate Table(tab: seq<Region>, free: seq<Region>, done: seq<Region>) {
    && NonEmpty(tab) && |tab| < MAX_RESERVED && |tab| <= |free| + |done|
    && (|free| + |done| < MAX_RESERVED ==>
          && (forall x: nat :: Has(tab, x) <==> Has(free, x) || Has(done, x))
          && (Overlapping(tab) <==> !Once(free, done))
          && (Gapped(tab) <==> Once(free, done)))
  }

  /** The table after one more region, given what the region may share with the table. */
  lemma TableGrows(tab: seq<Region>, free: seq<Region>, done: seq<Region>, reg: Region, out: seq<Region>,
      free': seq<Region>, done': seq<Region>)
    requires Table(tab, free, done) && |free| + |done| + 1 < MAX_RESERVED && reg.start < reg.end
    requires Reserved(tab, reg, out)
    requires |free'| + |done'| == |free| + |done| + 1
    requires forall x: nat :: Has(free', x) || Has(done', x) <==> Has(free, x) || Has(done, x) || InRegion(reg, x)
    requires Once(free', done') <==>
      Once(free, done) && !exists x: nat :: (Has(free, x) || Has(done, x)) && InRegion(reg, x)
    ensures Table(out, free', done')
  {
    MeetsTableHas(tab, reg);
    if Gapped(out) { GappedApart(out); }
  }

  /** insert_region: the region is reserved and appended to the free regions. */
  method InsertRegion(tab: seq<Region>, free: seq<Region>, reg: Region, ghost done: seq<Region>)
    returns (tab': seq<Region>, free': seq<Region>)
    requires Table(tab, free, done) && reg.start <= reg.end
    ensures free' == Kept(free, reg) && Table(tab', free', done)
  {
    if reg.start == reg.end { return tab, free; }
    var ok;
    ok, tab' := ReserveRegion(tab, reg);
    free' := free + [reg];
    if |free| + |done| + 1 < MAX_RESERVED {
      FreeShares(free, done, reg);
      TableGrows(tab, free, done, reg, tab', free', done);
    }
  }

  lemma FreeShares(free: seq<Region>, done: seq<Region>, reg: Region)
    requires reg.start < reg.end
    ensures forall x: nat :: Has(free + [reg], x) <==> Has(free, x) || InRegion(reg, x)
    ensures Once(free + [reg], done) <==>
      Once(free, done) && !exists x: nat :: (Has(free, x) || Has(done, x)) && InRegion(reg, x)
  {
    forall x: nat
      ensures Has(free + [reg], x) <==> Has(free, x) || InRegion(reg, x)
    {
      HasLast(free, reg, x);
    }
    OneMoreDisjoint(free, reg);
  }

  lemma OneMoreDisjoint(free: seq<Region>, reg: Region)
    requires reg.start < reg.end
    ensures NoneMeet(free + [reg]) <==> NoneMeet(free) && !exists x: nat :: Has(free, x) && InRegion(reg, x)
  {
    var f := free + [reg];
    if x: nat :| Has(free, x) && InRegion(reg, x) {
      var i :| 0 <= i < |free| && InRegion(free[i], x);
      assert Meets(f[i], f[|free|]);
    }
    if !NoneMeet(free) {
      var i, j :| 0 <= i < j < |free| && Meets(free[i], free[j]);
      assert Meets(f[i], f[j]);
    }
    if !NoneMeet(f) && NoneMeet(free) {
      var i, j :| 0 <= i < j < |f| && Meets(f[i], f[j]);
      assert j == |free|;
      var x := if f[i].start < reg.start then reg.start else f[i].start;
      assert InRegion(free[i], x) && InRegion(reg, x);
    }
  }

  /** Reserving the next reserved region. */
  method ReserveNext(tab: seq<Region>, p: Region, ghost free: seq<Region>, ghost done: seq<Region>)
    returns (tab': seq<Region>)
    requires Table(tab, free, done) && p.start <= p.end && forall x: nat :: Has(done, x) ==> x < p.start
    ensures Table(tab', free, done + [p])
  {
    if p.start == p.end {
      EmptyAdds(tab, free, done, p);
      return tab;
    }
    var ok;
    ok, tab' := ReserveRegion(tab, p);
    if |free| + |done| + 1 < MAX_RESERVED {
      DoneShares(free, done, p);
      TableGrows(tab, free, done, p, tab', free, done + [p]);
    }
  }

  lemma EmptyAdds(tab: seq<Region>, free: seq<Region>, done: seq<Region>, p: Region)
    requires Table(tab, free, done) && p.start == p.end
    ensures Table(tab, free, done + [p])
  {
    forall x: nat
      ensures Has(done + [p], x) <==> Has(done, x)
    {
      HasLast(done, p, x);
    }
  }

  lemma DoneShares(free: seq<Region>, done: seq<Region>, p: Region)
    requires forall x: nat :: Has(done, x) ==> x < p.start
    ensures forall x: nat :: Has(done + [p], x) <==> Has(done, x) || InRegion(p, x)
    ensures Once(free, done + [p]) <==>
      Once(free, done) && !(NoneMeet(free) && exists x: nat :: (Has(free, x) || Has(done, x)) && InRegion(p, x))
  {
    forall x: nat
      ensures Has(done + [p], x) <==> Has(done, x) || InRegion(p, x)
    {
      HasLast(done, p, x);
    }
  }

  /** The reserved regions before the pending ones. */
  ghost predicate Split(reserved: seq<Region>, done: seq<Region>, pend: seq<Region>) {
    reserved == done + pend && Ascending(reserved) && Ascending(pend)
  }

  lemma SplitNext(reserved: seq<Region>, done: seq<Region>, pend: seq<Region>)
    requires Split(reserved, done, pend) && pend != []
    ensures pend[0].start <= pend[0].end && forall x: nat :: Has(done, x) ==> x < pend[0].start
    ensures Split(reserved, done + [pend[0]], pend[1..])
  {
    assert AscendAt(pend, 0);
    HeadBelow(pend, 0);
    forall x: nat | Has(done, x)
      ensures x < pend[0].start
    {
      var i: nat :| i < |done| && InRegion(done[i], x);
      assert reserved[i] == done[i] && reserved[|done|] == pend[0];
      AscendingPair(reserved, i, |done|);
    }
  }

  /** One turn of the loop of rust_init_freemem, with the table. */
  method ScanTurn(tab: seq<Region>, free: seq<Region>, rest: seq<Region>, pend: seq<Region>,
      ghost reserved: seq<Region>, ghost done: seq<Region>)
    returns (tab': seq<Region>, free': seq<Region>, rest': seq<Region>, pend': seq<Region>, ghost done': seq<Region>)
    requires rest != [] && pend != [] && rest[0].start <= rest[0].end
    requires Split(reserved, done, pend) && Table(tab, free, done)
    ensures (free', rest', pend') == Turn(free, rest, pend)
    ensures Split(reserved, done', pend') && Table(tab', free', done')
  {
    tab', free', rest', pend', done' := tab, free, rest, pend, done;
    var h, p := rest[0], pend[0];
    SplitNext(reserved, done, pend);
    if p.start == p.end {
      EmptyAdds(tab, free, done, p);
      pend', done' := pend[1..], done + [p];
    } else if h.start >= h.end {
      rest' := rest[1..];
    } else if p.end <= h.start {
      tab' := ReserveNext(tab, p, free, done);
      pend', done' := pend[1..], done + [p];
    } else if p.start >= h.end {
      tab', free' := InsertRegion(tab, free, h, done);
      rest' := rest[1..];
    } else if p.start <= h.start {
      rest' := [Region(if h.end < p.end then h.end else p.end, h.end)] + rest[1..];
      tab' := ReserveNext(tab, p, free, done);
      pend', done' := pend[1..], done + [p];
    } else {
      assert p.start < h.end;
      tab', free' := InsertRegion(tab, free, Region(h.start, p.start), done);
      if h.end > p.end {
        rest' := [Region(p.end, h.end)] + rest[1..];
        tab' := ReserveNext(tab', p, free', done);
        pend', done' := pend[1..], done + [p];
      } else {
        rest' := rest[1..];
      }
    }
  }

  /** Scan gives the same whatever turn it is resumed at; what is free stays ascending, or disjoint, if the available
      regions are. */
  ghost predicate OnTheWay(available: seq<Region>, reserved: seq<Region>, free: seq<Region>, rest: seq<Region>,
      pend: seq<Region>)
  {
    && Proper(available) && Proper(rest) && Ascending(pend) && Scan(free, rest, pend) == Scan([], available, reserved)
    && NonEmpty(free) && (Ascending(available) ==> Ascending(rest) && FreeOrdered(free, rest))
    && (NoneMeet(available) ==> NoneMeet(free) && NoneMeet(rest) && Separated(free, rest))
  }

  lemma TurnOnTheWay(available: seq<Region>, reserved: seq<Region>, free: seq<Region>, rest: seq<Region>,
      pend: seq<Region>)
    requires OnTheWay(available, reserved, free, rest, pend) && rest != [] && pend != []
    ensures var t := Turn(free, rest, pend); OnTheWay(available, reserved, t.0, t.1, t.2)
  {
    HeadBelow(pend, 0);
    TurnProper(free, rest, pend);
    if Ascending(available) {
      TurnAscends(free, rest, pend);
      TurnOrdered(free, rest, pend);
    }
    if NoneMeet(available) { TurnDisjoint(free, rest, pend); }
  }

  lemma TakeOnTheWay(available: seq<Region>, reserved: seq<Region>, free: seq<Region>, rest: seq<Region>)
    requires OnTheWay(available, reserved, free, rest, []) && rest != []
    ensures OnTheWay(available, reserved, Kept(free, rest[0]), rest[1..], [])
  {
    if Ascending(available) {
      HeadBelow(rest, 0);
      KeptOrdered(free, rest[0]);
      assert AscendAt(rest, 0);
    }
    if NoneMeet(available) { KeptDisjoint(free, rest[0], rest[1..]); }
  }

  /** The scan as loops over both tables, with the available table trimmed in place. The free regions are ascending if
      the available ones are, and disjoint if they are; the table of reserved memory has exactly the free and the
      reserved addresses. */
  method ScanAll(available: seq<Region>, reserved: seq<Region>) returns (free: seq<Region>, tab: seq<Region>)
    requires Proper(available) && Ascending(reserved)
    ensures free == Scan([], available, reserved) && Table(tab, free, reserved) && NonEmpty(free)
    ensures (Ascending(available) ==> Ordered(free)) && (NoneMeet(available) ==> NoneMeet(free))
  {
    free, tab := [], [];
    var rest, pend := available, reserved;
    ghost var done := [];
    while rest != [] && pend != []
      invariant OnTheWay(available, reserved, free, rest, pend)
      invariant Split(reserved, done, pend) && Table(tab, free, done)
      decreases |rest| + |pend|
    {
      TurnOnTheWay(available, reserved, free, rest, pend);
      tab, free, rest, pend, done := ScanTurn(tab, free, rest, pend, reserved, done);
    }
    while pend != []
      invariant OnTheWay(available, reserved, free, rest, pend) && (rest == [] || pend == [])
      invariant Split(reserved, done, pend) && Table(tab, free, done)
    {
      SplitNext(reserved, done, pend);
      tab := ReserveNext(tab, pend[0], free, done);
      done := done + [pend[0]];
      pend := pend[1..];
    }
    assert done == reserved;
    while rest != []
      invariant OnTheWay(available, reserved, free, rest, [])
      invariant Table(tab, free, reserved)
    {
      TakeOnTheWay(available, reserved, free, rest);
      tab, free := InsertRegion(tab, free, rest[0], reserved);
      rest := rest[1..];
    }
  }

  /** check_available_memory refuses a missing, empty or inverted region; the order is only reported. */
  method CheckAvailable(available: seq<Region>) returns (ok: bool)
    ensures ok <==> available != [] && NonEmpty(available)
  {
    if available == [] { return false; }
    for i := 0 to |available|
      invariant forall j :: 0 <= j < i ==> available[j].start < available[j].end
    {
      if available[i].start > available[i].end { return false; }
      if available[i].start == available[i].end { return false; }
    }
    return true;
  }

  /** check_reserved_memory insists on ascending regions. */
  method CheckReserved(reserved: seq<Region>) returns (ok: bool)
    ensures ok <==> Ascending(reserved)
  {
    for i := 0 to |reserved|
      invariant forall j {:trigger AscendAt(reserved, j)} :: 0 <= j && j + 1 < i ==> AscendAt(reserved, j)
      invariant i > 0 ==> reserved[i - 1].start <= reserved[i - 1].end
    {
      if reserved[i].start > reserved[i].end {
        assert !AscendAt(reserved, i);
        return false;
      }
      if i > 0 && reserved[i].start < reserved[i - 1].end {
        assert !AscendAt(reserved, i - 1);
        return false;
      }
      assert i > 0 ==> AscendAt(reserved, i - 1);
    }
    forall i | 0 <= i < |reserved|
      ensures AscendAt(reserved, i)
    {
      assert i + 1 < |reserved| ==> AscendAt(reserved, i);
    }
    return true;
  }

  /** ceiling_kernel_window on both ends. */
  function Clamped(rs: seq<Region>, top: nat): (r: seq<Region>) {
    seq(|rs|, i requires 0 <= i < |rs| => Region(Ceiling(rs[i].start, top), Ceiling(rs[i].end, top)))
  }

  function Ceiling(x: nat, top: nat): (r: nat) {
    if x > top then top else x
  }

  lemma ClampedHas(rs: seq<Region>, top: nat)
    ensures forall x: nat :: Has(Clamped(rs, top), x) <==> Has(rs, x) && x < top
  {
    var c := Clamped(rs, top);
    forall x: nat
      ensures Has(c, x) <==> Has(rs, x) && x < top
    {
      if Has(c, x) {
        var i :| 0 <= i < |c| && InRegion(c[i], x);
        assert InRegion(rs[i], x);
      }
      if Has(rs, x) && x < top {
        var i :| 0 <= i < |rs| && InRegion(rs[i], x);
        assert InRegion(c[i], x);
      }
    }
  }

  lemma ClampedKeeps(rs: seq<Region>, top: nat)
    ensures Ascending(rs) ==> Ascending(Clamped(rs, top))
    ensures NoneMeet(rs) ==> NoneMeet(Clamped(rs, top))
    ensures NonEmpty(rs) ==> Proper(Clamped(rs, top))
  {
    var c := Clamped(rs, top);
    if Ascending(rs) {
      forall i | 0 <= i < |c|
        ensures AscendAt(c, i)
      {
        assert AscendAt(rs, i);
      }
    }
    if NoneMeet(rs) {
      forall i, j | 0 <= i < j < |c|
        ensures !Meets(c[i], c[j])
      {
        assert !Meets(rs[i], rs[j]);
      }
    }
  }

  /** Refused by a check; a region too many for insert_region, whose assertion fails; the last entry of the
      table of free regions in use; or done. */
  datatype Outcome = Refused | Panics | TooMany | Ready

  /** The free addresses are exactly the available ones below top that are not reserved. */
  ghost predicate FreeExact(free: seq<Region>, available: seq<Region>, top: nat, reserved: seq<Region>) {
    forall x: nat :: Has(free, x) <==> Has(available, x) && x < top && !Has(reserved, x)
  }

  /** rust_init_freemem. Its free addresses are right exactly if the scan is never done with a reserved region too
      early. The free regions are ascending if the available ones are, and disjoint if they are; the table of reserved
      memory has exactly the free and the reserved addresses, and is gap-separated exactly if nothing is in it twice. */
  method InitFreemem(available: seq<Region>, top: nat, reserved: seq<Region>)
    returns (outcome: Outcome, free: seq<Region>, tab: seq<Region>)
    requires |reserved| <= NUM_RESERVED_REGIONS
    ensures outcome == Refused <==> available == [] || !NonEmpty(available) || !Ascending(reserved)
    ensures outcome != Refused ==>
      && (outcome == Panics <==> |free| > MAX_FREE) && (outcome == TooMany <==> |free| == MAX_FREE)
      && (FreeExact(free, available, top, reserved) <==> NoBad(Clamped(available, top), reserved))
      && NonEmpty(free) && (NoneMeet(available) ==> NoneMeet(free))
      && (Ascending(available) ==> Ordered(free) && NoneMeet(free))
    ensures outcome == Ready ==>
      && (forall x: nat :: Has(tab, x) <==> Has(free, x) || Has(reserved, x))
      && (Gapped(tab) <==> NoBad(Clamped(available, top), reserved) && NoneMeet(free))
  {
    free, tab := [], [];
    var fine := CheckAvailable(available);
    if !fine { return Refused, free, tab; }
    fine := CheckReserved(reserved);
    if !fine { return Refused, free, tab; }
    ClampedKeeps(available, top);
    var avail := Clamped(available, top);
    free, tab := ScanAll(avail, reserved);
    ExactMeans(avail, reserved, free);
    ClampedHas(available, top);
    if Ascending(available) { AscendingDisjoint(available); }
    ClampedExact(available, top, reserved, free);
    outcome := if |free| > MAX_FREE then Panics else if |free| == MAX_FREE then TooMany else Ready;
  }

  /** The scan is wrong only by taking reserved addresses for free. */
  lemma ExactMeans(available: seq<Region>, reserved: seq<Region>, free: seq<Region>)
    requires Proper(available) && Ascending(reserved)
    requires free == Scan([], available, reserved)
    ensures (forall x: nat :: Has(free, x) <==> Has(available, x) && !Has(reserved, x)) <==> NoBad(available, reserved)
    ensures Share(free, reserved) <==> !NoBad(available, reserved)
  {
    ScanExactIff([], available, reserved);
    assert forall x: nat :: Accounted([], available, reserved, x) <==> Has(available, x) && !Has(reserved, x);
    forall x: nat
      ensures Has(free, x) ==> Has(available, x)
      ensures Has(available, x) && !Has(reserved, x) ==> Has(free, x)
    {
      if Has(free, x) { ScanInside([], available, reserved, x); }
      if Accounted([], available, reserved, x) { ScanKeeps([], available, reserved, x); }
    }
  }

  lemma ClampedExact(available: seq<Region>, top: nat, reserved: seq<Region>, free: seq<Region>)
    requires forall x: nat :: Has(Clamped(available, top), x) <==> Has(available, x) && x < top
    ensures FreeExact(free, available, top, reserved) <==>
      forall x: nat :: Has(free, x) <==> Has(Clamped(available, top), x) && !Has(reserved, x)
  {
  }

  lemma {:induction false} ScanInside(free: seq<Region>, rest: seq<Region>, pend: seq<Region>, x: nat)
    requires Proper(rest) && Ascending(pend) && Has(Scan(free, rest, pend), x)
    ensures Has(free, x) || Has(rest, x)
    decreases |rest| + |pend|
  {
    if rest != [] {
      HasHead(rest, x);
      KeptHas(free, rest[0], x);
      if pend == [] {
        ScanInside(Kept(free, rest[0]), rest[1..], pend, x);
      } else {
        TurnProper(free, rest, pend);
        var t := Turn(free, rest, pend);
        TurnInside(free, rest, pend, x);
        ScanInside(t.0, t.1, t.2, x);
      }
    }
  }

  lemma TurnInside(free: seq<Region>, rest: seq<Region>, pend: seq<Region>, x: nat)
    requires rest != [] && pend != [] && Ascending(pend) && rest[0].start <= rest[0].end
    ensures var t := Turn(free, rest, pend); Has(t.0, x) || Has(t.1, x) ==> Has(free, x) || Has(rest, x)
  {
    var h, p := rest[0], pend[0];
    var t := Turn(free, rest, pend);
    HasHead(rest, x);
    KeptHas(free, h, x);
    KeptHas(free, Region(h.start, p.start), x);
    if t.1 != [] { HasHead(t.1, x); }
    if |t.1| == |rest| { assert t.1[1..] == rest[1..]; }
  }

  /** A reserved region that swallows one available region and bites into the next is not taken out. */
  lemma SwallowedRegionSpills()
    ensures
      var available, reserved := [Region(6, 10), Region(12, 20)], [Region(5, 15)];
      Ascending(available) && Ascending(reserved) && !ExactScan([], available, reserved)
  {
    var available, reserved := [Region(6, 10), Region(12, 20)], [Region(5, 15)];
    assert AscendAt(available, 0) && AscendAt(available, 1) && AscendAt(reserved, 0);
    assert Bad(available, reserved, 0, 0, 1);
    ScanExactIff([], available, reserved);
  }

  /** Available regions in the wrong order: the reserved region lies below the first and is forgotten. */
  lemma WrongOrderSpills()
    ensures
      var available, reserved := [Region(10, 20), Region(0, 10)], [Region(2, 4)];
      NonEmpty(available) && NoneMeet(available) && Ascending(reserved) && !ExactScan([], available, reserved)
  {
    var available, reserved := [Region(10, 20), Region(0, 10)], [Region(2, 4)];
    assert AscendAt(reserved, 0);
    assert Bad(available, reserved, 0, 0, 1);
    ScanExactIff([], available, reserved);
  }
}
