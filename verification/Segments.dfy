/** How a Sphere job cuts its input files into data segments. */
module Segments {

  /** An input file: its size in bytes, its number of records or -1 when it has no index, and
      whether a location is known. */
  datatype File = File(name: string, size: nat, records: int, located: bool)

  /** Segment `id` covers records offset to offset + size - 1 of file number `file`. */
  datatype Segment = Segment(id: nat, file: nat, offset: nat, size: int)

  /** Spins: the code loops forever. */
  datatype Outcome = Segments(ds: seq<Segment>) | NoLocation | NoIndex | Spins

  function TotalSize(fs: seq<File>): nat {
    if fs == [] then 0 else fs[0].size + TotalSize(fs[1..])
  }

  predicate Indexed(fs: seq<File>) { forall i :: 0 <= i < |fs| ==> fs[i].records != -1 }

  function TotalRecords(fs: seq<File>): int {
    if fs == [] then 0 else fs[0].records + TotalRecords(fs[1..])
  }

  function CeilDiv(a: nat, b: nat): nat
    requires b > 0
  {
    a / b + if a % b != 0 then 1 else 0
  }

  /** The number of segments the code aims at. */
  function Target(size: nat, spes: nat, minUnit: nat, maxUnit: nat): nat
    requires spes > 0 && minUnit > 0 && maxUnit > 0
  {
    var avg := size / spes;
    if avg > maxUnit then CeilDiv(size, maxUnit)
    else if avg < minUnit then CeilDiv(size, minUnit)
    else spes
  }

  /** Records per segment: at least one. */
  function UnitSize(records: nat, n: nat): nat
    requires n > 0
  {
    if records / n < 1 then 1 else records / n
  }

  lemma CeilLeast(a: nat, b: nat, k: nat)
    requires b > 0
    ensures a <= k * b <==> CeilDiv(a, b) <= k
  {
    Quotient(a, b);
    CeilFrom(a / b, a % b, a, b, k);
  }

  lemma Quotient(a: nat, b: nat)
    requires b > 0
    ensures a == (a / b) * b + a % b
  {
  }

  lemma CeilFrom(q: nat, r: nat, a: nat, b: nat, k: nat)
    requires a == q * b + r && r < b
    ensures a <= k * b <==> (q + if r != 0 then 1 else 0) <= k
  {
    if k <= q { Products(k, q, b); } else { Products(q + 1, k, b); }
  }

  lemma Products(j: nat, k: nat, b: nat)
    requires j <= k
    ensures j * b <= k * b && (j + 1) * b == j * b + b && (k < j + 1 ==> k == j)
  {
    assert (k - j) * b >= 0;
  }

  /** If the input is more than the largest unit for each engine, the target is the least number of segments of at
      most that size, and there are more of them than engines; if it is less than the smallest unit for each, the
      least number of segments of at most that size, and no more than engines; else one segment for each engine. */
  lemma TargetIs(size: nat, spes: nat, minUnit: nat, maxUnit: nat)
    requires spes > 0 && minUnit > 0 && maxUnit > 0
    ensures var n := Target(size, spes, minUnit, maxUnit);
      if size >= spes * (maxUnit + 1) then n > spes && forall k: nat :: Hold(k, maxUnit, size) <==> n <= k
      else if size < spes * minUnit then n <= spes && forall k: nat :: Hold(k, minUnit, size) <==> n <= k
      else n == spes
  {
    QuotientAtLeast(size, spes, maxUnit + 1);
    QuotientAtLeast(size, spes, minUnit);
    forall k: nat ensures Hold(k, maxUnit, size) <==> CeilDiv(size, maxUnit) <= k { CeilLeast(size, maxUnit, k); }
    forall k: nat ensures Hold(k, minUnit, size) <==> CeilDiv(size, minUnit) <= k { CeilLeast(size, minUnit, k); }
    MulAdd(spes, maxUnit, 1);
    assert Hold(spes, minUnit, size) <==> CeilDiv(size, minUnit) <= spes;
    assert Hold(spes, maxUnit, size) <==> CeilDiv(size, maxUnit) <= spes;
  }

  /** k segments of u bytes hold that many bytes. */
  predicate Hold(k: nat, u: nat, size: nat) { size <= k * u }

  lemma QuotientAtLeast(a: nat, b: nat, c: nat)
    requires b > 0
    ensures a / b >= c <==> a >= b * c
  {
    var q := a / b;
    assert a == b * q + a % b;
    if q >= c { MulMono(b, c, q); } else { MulMono(b, q + 1, c); assert b * (q + 1) == b * q + b; }
  }

  /** The segments are at most the largest unit on average, unless the share of an engine, rounded down, is that
      unit and not a whole number of bytes. */
  lemma AverageFitsIff(size: nat, spes: nat, minUnit: nat, maxUnit: nat)
    requires spes > 0 && 0 < minUnit <= maxUnit
    ensures Hold(Target(size, spes, minUnit, maxUnit), maxUnit, size) <==>
      !(size / spes == maxUnit && size % spes != 0)
  {
    var n := Target(size, spes, minUnit, maxUnit);
    LeastHolding(size, maxUnit, n);
    LeastHolding(size, minUnit, n);
    if size / spes < minUnit {
      HoldMore(n, minUnit, maxUnit, size);
    } else if size / spes <= maxUnit {
      Quotient(size, spes);
      FitsIff(size, spes, size / spes, size % spes, maxUnit);
    }
  }

  lemma LeastHolding(size: nat, u: nat, n: nat)
    requires u > 0
    ensures Hold(n, u, size) <==> CeilDiv(size, u) <= n
  {
    CeilLeast(size, u, n);
  }

  lemma HoldMore(n: nat, u: nat, v: nat, size: nat)
    requires u <= v && Hold(n, u, size)
    ensures Hold(n, v, size)
  {
    MulMono(n, u, v);
  }

  lemma FitsIff(size: nat, spes: nat, q: nat, r: nat, u: nat)
    requires size == q * spes + r && r < spes && q <= u
    ensures Hold(spes, u, size) <==> !(q == u && r != 0)
  {
    if q < u {
      MulMono(spes, q + 1, u);
      MulAdd(spes, q, 1);
    }
  }

  predicate Nameless(f: File) { f.name == "" || f.size == 0 }

  /** Files that stop the cutting. */
  predicate Trouble(f: File) { f.records > 0 && (Nameless(f) || !f.located) }

  /** Place of the first such file. */
  function FirstTrouble(fs: seq<File>): (i: nat)
    ensures i <= |fs|
    ensures i < |fs| ==> Trouble(fs[i])
    ensures forall j :: 0 <= j < i ==> !Trouble(fs[j])
  {
    if fs == [] || Trouble(fs[0]) then 0 else 1 + FirstTrouble(fs[1..])
  }

  // ----- What the segments are

  /** Consecutive segments of u records, the last one shorter, from record off of the file on. */
  function Cuts(file: nat, off: nat, records: int, u: nat, id: nat): seq<Segment>
    requires u > 0
    decreases records - off
  {
    if off >= records then []
    else
      var n := if records - off > u then u else records - off;
      [Segment(id, file, off, n)] + Cuts(file, off + n, records, u, id + 1)
  }

  /** All segments of the first k files. */
  function AllCuts(fs: seq<File>, k: nat, u: nat): seq<Segment>
    requires u > 0 && k <= |fs|
  {
    if k == 0 then []
    else
      var before := AllCuts(fs, k - 1, u);
      before + Cuts(k - 1, 0, fs[k - 1].records, u, |before|)
  }

  predicate Covers(s: Segment, file: nat, x: int) { s.file == file && s.offset <= x < s.offset + s.size }

  ghost predicate Covered(c: seq<Segment>, file: nat, x: int) {
    exists k :: 0 <= k < |c| && Covers(c[k], file, x)
  }

  /** Numbered from `id` on, of 1 to u records of one file, in order and without overlap. */
  ghost predicate InOrder(c: seq<Segment>, file: nat, off: nat, records: int, u: nat, id: nat) {
    && (forall k :: 0 <= k < |c| ==> c[k].id == id + k && c[k].file == file && 1 <= c[k].size <= u)
    && (forall k :: 0 <= k < |c| ==> off <= c[k].offset && c[k].offset + c[k].size <= records)
    && (forall j, k :: 0 <= j < k < |c| ==> c[j].offset + c[j].size <= c[k].offset)
  }

  lemma {:induction false} CutsInOrder(file: nat, off: nat, records: int, u: nat, id: nat)
    requires u > 0
    ensures InOrder(Cuts(file, off, records, u, id), file, off, records, u, id)
    decreases records - off
  {
    if off < records {
      var c := Cuts(file, off, records, u, id);
      var n := c[0].size;
      var rest := Cuts(file, off + n, records, u, id + 1);
      CutsInOrder(file, off + n, records, u, id + 1);
      assert forall k :: 0 < k < |c| ==> c[k] == rest[k - 1];
    }
  }

  lemma {:induction false} CutsCover(file: nat, off: nat, records: int, u: nat, id: nat, x: int)
    requires u > 0 && off <= x < records
    ensures Covered(Cuts(file, off, records, u, id), file, x)
    decreases records - off
  {
    var c := Cuts(file, off, records, u, id);
    var n := c[0].size;
    if x < off + n {
      assert Covers(c[0], file, x);
    } else {
      var rest := Cuts(file, off + n, records, u, id + 1);
      CutsCover(file, off + n, records, u, id + 1, x);
      var k :| 0 <= k < |rest| && Covers(rest[k], file, x);
      assert Covers(c[k + 1], file, x);
    }
  }

  /** All but the last segment of a file are full. */
  lemma {:induction false} CutsCount(file: nat, off: nat, records: int, u: nat, id: nat)
    requires u > 0 && off <= records
    ensures u * |Cuts(file, off, records, u, id)| < records - off + u
    decreases records - off
  {
    if off < records {
      var c := Cuts(file, off, records, u, id);
      var rest := Cuts(file, off + c[0].size, records, u, id + 1);
      CutsCount(file, off + c[0].size, records, u, id + 1);
      MulSucc(u, |rest|);
    }
  }

  lemma MulSucc(u: nat, n: nat)
    ensures u * (1 + n) == u + u * n
  {
  }

  /** The segments c tile the records of the first k files. */
  ghost predicate Tiling(fs: seq<File>, k: nat, u: nat, c: seq<Segment>)
    requires k <= |fs|
  {
    Placed(fs, k, u, c) && Whole(fs, k, c)
  }

  /** Numbered from 0 on, of 1 to u records, inside their file, and no two overlap. */
  ghost predicate Placed(fs: seq<File>, k: nat, u: nat, c: seq<Segment>)
    requires k <= |fs|
  {
    && (forall i :: 0 <= i < |c| ==> c[i].id == i && c[i].file < k && 1 <= c[i].size <= u)
    && (forall i :: 0 <= i < |c| ==> c[i].offset + c[i].size <= fs[c[i].file].records)
    && (forall i, j :: 0 <= i < j < |c| && c[i].file == c[j].file ==> c[i].offset + c[i].size <= c[j].offset)
  }

  /** No record is left out. */
  ghost predicate Whole(fs: seq<File>, k: nat, c: seq<Segment>)
    requires k <= |fs|
  {
    forall f, x {:trigger Covered(c, f, x)} :: 0 <= f < k && 0 <= x < fs[f].records ==> Covered(c, f, x)
  }

  lemma PlacedPlus(fs: seq<File>, k: nat, u: nat, a: seq<Segment>, b: seq<Segment>)
    requires 0 < k <= |fs| && Placed(fs, k - 1, u, a) && InOrder(b, k - 1, 0, fs[k - 1].records, u, |a|)
    ensures Placed(fs, k, u, a + b)
  {
    var c := a + b;
    forall i | 0 <= i < |c| ensures c[i].file < k && c[i] == if i < |a| then a[i] else b[i - |a|] {
    }
  }

  lemma AllCutsCover(fs: seq<File>, k: nat, u: nat, f: nat, x: nat)
    requires u > 0 && 0 < k <= |fs| && Whole(fs, k - 1, AllCuts(fs, k - 1, u))
    requires f < k && x < fs[f].records
    ensures Covered(AllCuts(fs, k, u), f, x)
  {
    var a := AllCuts(fs, k - 1, u);
    var b := Cuts(k - 1, 0, fs[k - 1].records, u, |a|);
    if f == k - 1 { CutsCover(k - 1, 0, fs[k - 1].records, u, |a|, x); } else { assert Covered(a, f, x); }
    CoveredConcat(a, b, f, x);
  }

  lemma {:induction false} AllCutsTile(fs: seq<File>, k: nat, u: nat)
    requires u > 0 && k <= |fs|
    ensures Tiling(fs, k, u, AllCuts(fs, k, u))
  {
    if k > 0 {
      AllCutsTile(fs, k - 1, u);
      var a, r := AllCuts(fs, k - 1, u), fs[k - 1].records;
      var b := Cuts(k - 1, 0, r, u, |a|);
      CutsInOrder(k - 1, 0, r, u, |a|);
      PlacedPlus(fs, k, u, a, b);
      forall f, x | 0 <= f < k && 0 <= x < fs[f].records ensures Covered(a + b, f, x) {
        AllCutsCover(fs, k, u, f, x);
      }
    }
  }

  lemma CoveredConcat(a: seq<Segment>, b: seq<Segment>, f: nat, x: int)
    requires Covered(a, f, x) || Covered(b, f, x)
    ensures Covered(a + b, f, x)
  {
    if Covered(a, f, x) {
      var i :| 0 <= i < |a| && Covers(a[i], f, x);
      assert Covers((a + b)[i], f, x);
    } else {
      var i :| 0 <= i < |b| && Covers(b[i], f, x);
      assert Covers((a + b)[|a| + i], f, x);
    }
  }

  /** Every record of every file is in exactly one segment. */
  lemma RecordOnce(fs: seq<File>, u: nat, f: nat, x: int) returns (i: nat)
    requires u > 0 && f < |fs| && 0 <= x < fs[f].records
    ensures var c := AllCuts(fs, |fs|, u);
      && i < |c| && Covers(c[i], f, x)
      && forall j :: 0 <= j < |c| && Covers(c[j], f, x) ==> j == i
  {
    var c := AllCuts(fs, |fs|, u);
    AllCutsTile(fs, |fs|, u);
    assert Covered(c, f, x);
    i :| 0 <= i < |c| && Covers(c[i], f, x);
  }

  // ----- How many there are

  lemma {:induction false} RecordsUpTo(fs: seq<File>, k: nat, u: nat)
    requires u > 0 && k <= |fs| && forall i :: 0 <= i < |fs| ==> fs[i].records >= 0
    ensures 0 <= TotalRecords(fs[..k])
    ensures k > 0 ==> u * |AllCuts(fs, k, u)| < TotalRecords(fs[..k]) + u * k
  {
    if k > 0 {
      RecordsUpTo(fs, k - 1, u);
      var a := AllCuts(fs, k - 1, u);
      CutsCount(k - 1, 0, fs[k - 1].records, u, |a|);
      TotalSnoc(fs[..k - 1], fs[k - 1]);
      assert fs[..k] == fs[..k - 1] + [fs[k - 1]];
      MulAdd(u, |a|, |Cuts(k - 1, 0, fs[k - 1].records, u, |a|)|);
      MulSucc(u, k - 1);
    }
  }

  lemma MulAdd(u: nat, a: nat, b: nat)
    ensures u * (a + b) == u * a + u * b
  {
  }

  lemma {:induction false} TotalSnoc(fs: seq<File>, f: File)
    ensures TotalRecords(fs + [f]) == TotalRecords(fs) + f.records
  {
    if fs == [] {
      assert fs + [f] == [f] && [f][1..] == [];
    } else {
      assert (fs + [f])[1..] == fs[1..] + [f];
      TotalSnoc(fs[1..], f);
    }
  }

  lemma UnitSizeBound(records: nat, n: nat)
    requires n > 0
    ensures var u := UnitSize(records, n); records < 2 * n * u
  {
    var q, u := records / n, UnitSize(records, n);
    assert records == n * q + records % n;
    assert records < n * (q + 1);
    assert q + 1 <= 2 * u;
    MulMono(n, q + 1, 2 * u);
    assert n * (2 * u) == 2 * n * u;
  }

  lemma MulMono(n: nat, a: nat, b: nat)
    requires a <= b
    ensures n * a <= n * b
  {
    assert n * (b - a) >= 0;
  }

  /** With a target of n segments over F files there are fewer than 2n + F. */
  lemma FewSegments(fs: seq<File>, n: nat)
    requires n > 0 && fs != [] && forall i :: 0 <= i < |fs| ==> fs[i].records >= 0
    ensures TotalRecords(fs) >= 0
    ensures |AllCuts(fs, |fs|, UnitSize(TotalRecords(fs), n))| < 2 * n + |fs|
  {
    assert fs[..|fs|] == fs;
    RecordsUpTo(fs, |fs|, 1);
    var u := UnitSize(TotalRecords(fs), n);
    RecordsUpTo(fs, |fs|, u);
    UnitSizeBound(TotalRecords(fs), n);
    Fewer(u, |AllCuts(fs, |fs|, u)|, TotalRecords(fs), n, |fs|);
  }

  lemma Fewer(u: nat, cuts: nat, records: nat, n: nat, files: nat)
    requires u * cuts <= records + u * files && records < 2 * n * u
    ensures cuts < 2 * n + files
  {
    MulLess(u, cuts, 2 * n + files);
    MulAdd(u, 2 * n, files);
    assert u * (2 * n) == 2 * n * u;
  }

  lemma MulLess(u: nat, a: nat, b: nat)
    ensures u * a < u * b ==> a < b
  {
    if b <= a { MulMono(u, b, a); }
  }

  // ----- The code

  /** How the job ends up when it has the record counts it needs. */
  ghost predicate Cut(fs: seq<File>, n: nat, r: Outcome) {
    var i := FirstTrouble(fs);
    if i < |fs| then r == if Nameless(fs[i]) then Spins else NoLocation
    else n > 0 && TotalRecords(fs) >= 0 && r == Segments(AllCuts(fs, |fs|, UnitSize(TotalRecords(fs), n)))
  }

  /** One file at a time: files without name or content are left out. */
  function WholeFiles(fs: seq<File>, k: nat): seq<Segment>
    requires k <= |fs|
  {
    if k == 0 then []
    else
      var before := WholeFiles(fs, k - 1);
      if Nameless(fs[k - 1]) then before else before + [Segment(|before|, k - 1, 0, fs[k - 1].records)]
  }

  /** They are the files with name and content, in order, each with all its records, numbered from 0 on. */
  lemma {:induction false} WholeFilesAre(fs: seq<File>, k: nat)
    requires k <= |fs|
    ensures Wholes(fs, k, WholeFiles(fs, k))
    ensures forall f :: 0 <= f < k && !Nameless(fs[f]) ==> HasFile(WholeFiles(fs, k), f)
  {
    if k > 0 {
      WholeFilesAre(fs, k - 1);
      var before, c := WholeFiles(fs, k - 1), WholeFiles(fs, k);
      if Nameless(fs[k - 1]) {
        assert c == before;
      } else {
        WholesNext(fs, k, before);
        forall f | 0 <= f < k && !Nameless(fs[f]) ensures HasFile(c, f) {
          HasNext(before, Segment(|before|, k - 1, 0, fs[k - 1].records), f);
        }
      }
    }
  }

  lemma WholesNext(fs: seq<File>, k: nat, before: seq<Segment>)
    requires 0 < k <= |fs| && Wholes(fs, k - 1, before) && !Nameless(fs[k - 1])
    ensures Wholes(fs, k, before + [Segment(|before|, k - 1, 0, fs[k - 1].records)])
  {
  }

  lemma HasNext(c: seq<Segment>, s: Segment, f: nat)
    requires HasFile(c, f) || s.file == f
    ensures HasFile(c + [s], f)
  {
    if s.file == f {
      assert (c + [s])[|c|].file == f;
    } else {
      var i :| 0 <= i < |c| && c[i].file == f;
      assert (c + [s])[i].file == f;
    }
  }

  ghost predicate Wholes(fs: seq<File>, k: nat, c: seq<Segment>)
    requires k <= |fs|
  {
    && (forall i :: 0 <= i < |c| ==> c[i].file < k && !Nameless(fs[c[i].file]))
    && (forall i :: 0 <= i < |c| ==> c[i].id == i && c[i].offset == 0 && c[i].size == fs[c[i].file].records)
    && (forall i, j :: 0 <= i < j < |c| ==> c[i].file < c[j].file)
  }

  ghost predicate HasFile(c: seq<Segment>, f: nat) { exists i :: 0 <= i < |c| && c[i].file == f }

  /** A file that would become a segment has no known location. */
  predicate Unlocated(fs: seq<File>) { exists i :: 0 <= i < |fs| && !Nameless(fs[i]) && !fs[i].located }

  /** segmentData: whole files when `rows` is 0, else runs of records. */
  method SegmentData(fs: seq<File>, rows: int, spes: nat, minUnit: nat, maxUnit: nat) returns (r: Outcome)
    requires spes > 0 && minUnit > 0 && maxUnit > 0 && TotalSize(fs) > 0
    requires forall i :: 0 <= i < |fs| ==> fs[i].records >= -1
    ensures rows == 0 ==> r == if Unlocated(fs) then NoLocation else Segments(WholeFiles(fs, |fs|))
    ensures rows != 0 ==>
      if Indexed(fs) then Cut(fs, Target(TotalSize(fs), spes, minUnit, maxUnit), r) else r == NoIndex
  {
    if rows == 0 {
      r := CutWhole(fs);
    } else if Indexed(fs) {
      TargetPositive(TotalSize(fs), spes, minUnit, maxUnit);
      RecordsUpTo(fs, |fs|, 1);
      assert fs[..|fs|] == fs;
      var n := Target(TotalSize(fs), spes, minUnit, maxUnit);
      r := CutRecords(fs, UnitSize(TotalRecords(fs), n));
    } else {
      r := NoIndex;
    }
  }

  lemma TargetPositive(size: nat, spes: nat, minUnit: nat, maxUnit: nat)
    requires size > 0 && spes > 0 && minUnit > 0 && maxUnit > 0
    ensures Target(size, spes, minUnit, maxUnit) > 0
  {
    CeilPositive(size, minUnit);
    CeilPositive(size, maxUnit);
  }

  lemma CeilPositive(a: nat, b: nat)
    requires a > 0 && b > 0
    ensures CeilDiv(a, b) > 0
  {
    assert a == b * (a / b) + a % b;
  }

  method CutWhole(fs: seq<File>) returns (r: Outcome)
    ensures r == if Unlocated(fs) then NoLocation else Segments(WholeFiles(fs, |fs|))
  {
    var ds := [];
    for i := 0 to |fs|
      invariant ds == WholeFiles(fs, i)
      invariant forall j :: 0 <= j < i ==> Nameless(fs[j]) || fs[j].located
    {
      if Nameless(fs[i]) {
        continue;
      }
      if !fs[i].located {
        return NoLocation;
      }
      ds := ds + [Segment(|ds|, i, 0, fs[i].records)];
    }
    r := Segments(ds);
  }

  method CutRecords(fs: seq<File>, u: nat) returns (r: Outcome)
    requires u > 0 && forall i :: 0 <= i < |fs| ==> fs[i].records >= 0
    ensures var i := FirstTrouble(fs);
      if i < |fs| then r == if Nameless(fs[i]) then Spins else NoLocation
      else r == Segments(AllCuts(fs, |fs|, u))
  {
    var ds := [];
    for i := 0 to |fs|
      invariant ds == AllCuts(fs, i, u)
      invariant i <= FirstTrouble(fs)
    {
      var off := 0;
      ghost var before := ds;
      while off < fs[i].records
        invariant 0 <= off <= fs[i].records
        invariant before + Cuts(i, 0, fs[i].records, u, |before|) == ds + Cuts(i, off, fs[i].records, u, |ds|)
        invariant off > 0 ==> !Trouble(fs[i])
        decreases fs[i].records - off
      {
        if Nameless(fs[i]) {
          return Spins;
        }
        if !fs[i].located {
          return NoLocation;
        }
        var size := if fs[i].records - off > u then u else fs[i].records - off;
        ds := ds + [Segment(|ds|, i, off, size)];
        off := off + size;
      }
    }
    r := Segments(ds);
  }
}
