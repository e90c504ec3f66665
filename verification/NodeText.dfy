/** The line of text that stands for one node of the metadata tree, without its children. */
module NodeText {
  import opened Seqs
  import opened Metadata

  // ----- Decimal numbers

  function Digit(d: nat): char
    requires d < 10
  {
    '0' + d as char
  }

  predicate IsDigit(c: char) { '0' <= c <= '9' }

  function Decimal(n: nat): (s: string)
    ensures s != [] && forall i :: 0 <= i < |s| ==> IsDigit(s[i])
  {
    if n < 10 then [Digit(n)] else Decimal(n / 10) + [Digit(n % 10)]
  }

  function Printed(n: int): string { if n < 0 then "-" + Decimal(-n) else Decimal(n) }

  /** Reading digits up to the first other character. */
  function Digits(s: string, acc: nat): nat {
    if s == [] || !IsDigit(s[0]) then acc else Digits(s[1..], 10 * acc + (s[0] - '0') as nat)
  }

  predicate IsSpace(c: char) { c == ' ' || 9 as char <= c <= 13 as char }

  /** atoi and atoll of the C library. */
  function Atoi(s: string): int {
    if s != [] && IsSpace(s[0]) then Atoi(s[1..])
    else if s != [] && s[0] == '-' then -(Digits(s[1..], 0) as int)
    else if s != [] && s[0] == '+' then Digits(s[1..], 0)
    else Digits(s, 0)
  }

  lemma {:induction false} DigitsBack(n: nat, t: string)
    ensures Digits(Decimal(n) + t, 0) == Digits(t, n)
  {
    if n >= 10 {
      var u := [Digit(n % 10)] + t;
      assert Decimal(n) + t == Decimal(n / 10) + u;
      DigitsBack(n / 10, u);
      assert u[1..] == t;
    } else {
      assert (Decimal(n) + t)[1..] == t;
    }
  }

  lemma AtoiBack(n: int)
    ensures Atoi(Printed(n)) == n
  {
    var d := if n < 0 then -n else n;
    DigitsBack(d, "");
    assert Decimal(d) + "" == Decimal(d);
    if n < 0 {
      assert Printed(n)[1..] == Decimal(d);
    }
  }

  // ----- Fields

  /** c does not occur in s. */
  predicate Free(s: string, c: char) { forall i :: 0 <= i < |s| ==> s[i] != c }

  /** The text up to the first separator, what comes after it, and whether there is none. */
  datatype Cut = Cut(text: string, rest: string, stop: bool)

  function Split(s: string, c: char): (f: Cut)
    ensures !f.stop ==> |f.rest| < |s|
  {
    if s == [] then Cut("", "", true)
    else if s[0] == c then Cut("", s[1..], false)
    else
      var f := Split(s[1..], c);
      f.(text := [s[0]] + f.text)
  }

  lemma {:induction false} FieldIs(a: string, b: string, c: char)
    requires Free(a, c)
    ensures Split(a + [c] + b, c) == Cut(a, b, false)
  {
    var s := a + [c] + b;
    if a == [] {
      assert s[1..] == b;
    } else {
      assert s[1..] == a[1..] + [c] + b;
      FieldIs(a[1..], b, c);
      assert [s[0]] + a[1..] == a;
    }
  }

  lemma {:induction false} LastIs(a: string, c: char)
    requires Free(a, c)
    ensures Split(a, c) == Cut(a, "", true)
  {
    if a != [] {
      LastIs(a[1..], c);
      assert [a[0]] + a[1..] == a;
    }
  }

  /** Cuts the first field off: the scan that deserialize makes for every field. */
  method Field(tmp: string, c: char) returns (text: string, rest: string, stop: bool)
    ensures Cut(text, rest, stop) == Split(tmp, c)
  {
    for i := 0 to |tmp|
      invariant Free(tmp[..i], c)
    {
      if tmp[i] == c {
        FieldIs(tmp[..i], tmp[i + 1..], c);
        assert tmp == tmp[..i] + [c] + tmp[i + 1..];
        return tmp[..i], tmp[i + 1..], false;
      }
    }
    assert tmp[..|tmp|] == tmp;
    LastIs(tmp, c);
    text, rest, stop := tmp, "", true;
  }

  // ----- Printing

  function Flag(b: bool): int { if b then 1 else 0 }

  function LocsText(locs: seq<Address>): string {
    if locs == [] then "" else LocText(locs[0]) + LocsText(locs[1..])
  }

  /** The text of a node whose locations come in the given order. */
  function Text(n: Node, locs: seq<Address>): string {
    Printed(|n.name|) + "," + n.name + "," + Printed(Flag(n.isDir)) + "," + Printed(n.time) + "," + Printed(n.size) +
      LocsText(locs)
  }

  /** locs lists the elements of s, each once. */
  ghost predicate Lists(locs: seq<Address>, s: set<Address>) {
    (forall a :: a in locs <==> a in s) && |locs| == |s|
  }

  /** The text of a node, with its locations in some order. */
  ghost predicate IsText(buf: string, n: Node) { exists locs :: Lists(locs, n.locs) && buf == Text(n, locs) }

  function LocText(a: Address): string { "," + a.ip + "," + Printed(a.port) }

  lemma {:induction false} LocsTextConcat(locs: seq<Address>, a: Address)
    ensures LocsText(locs + [a]) == LocsText(locs) + LocText(a)
  {
    if locs != [] {
      assert (locs + [a])[1..] == locs[1..] + [a];
      LocsTextConcat(locs[1..], a);
      Assoc(LocText(locs[0]), LocsText(locs[1..]), LocText(a));
    } else {
      assert [] + [a] == [a];
      assert [a][1..] == [];
      assert LocText(a) + LocsText([]) == LocText(a);
    }
  }

  lemma LocsTextPlus(locs: seq<Address>, a: Address)
    ensures LocsText(locs + [a]) == LocsText(locs) + "," + a.ip + "," + Printed(a.port)
  {
    LocsTextConcat(locs, a);
    AssocFour(LocsText(locs), ",", a.ip, ",", Printed(a.port));
  }

  lemma AssocFour(t: string, a: string, b: string, c: string, d: string)
    ensures t + (a + b + c + d) == t + a + b + c + d
  {
  }

  lemma ListsPlus(locs: seq<Address>, s: set<Address>, a: Address)
    requires Lists(locs, s) && a !in s
    ensures Lists(locs + [a], s + {a})
  {
  }

  /** serialize: the locations come out in the order in which the set is walked. */
  method Serialize(n: Node) returns (buf: string, ghost locs: seq<Address>)
    ensures Lists(locs, n.locs) && buf == Text(n, locs) && IsText(buf, n)
  {
    buf := Printed(|n.name|) + "," + n.name + "," + Printed(Flag(n.isDir))
      + "," + Printed(n.time) + "," + Printed(n.size);
    var text;
    text, locs := PrintLocs(n.locs);
    buf := buf + text;
  }

  /** The loop of serialize over the locations. */
  method PrintLocs(s: set<Address>) returns (text: string, ghost locs: seq<Address>)
    ensures Lists(locs, s) && text == LocsText(locs)
  {
    text, locs := "", [];
    var todo := s;
    ghost var done := {};
    while todo != {}
      invariant todo !! done && todo + done == s && Lists(locs, done) && text == LocsText(locs)
      decreases todo
    {
      var a :| a in todo;
      LocsTextPlus(locs, a);
      ListsPlus(locs, done, a);
      text := text + "," + a.ip + "," + Printed(a.port);
      locs, done, todo := locs + [a], done + {a}, todo - {a};
    }
    assert done == s;
  }

  // ----- Reading

  /** What reading some text leaves in a node, and the code that is returned. */
  datatype Outcome = Outcome(rc: int, node: Node)

  /** The locations in a text, up to its end or to an address without a port. */
  function ReadLocs(n: Node, s: string): Outcome
    decreases |s|
  {
    var ip := Split(s, ',');
    if ip.stop then Outcome(-1, n)
    else
      var port := Split(ip.rest, ',');
      var n' := n.(locs := n.locs + {Address(ip.text, Atoi(port.text))});
      if port.stop then Outcome(0, n') else ReadLocs(n', port.rest)
  }

  function ReadSize(n: Node, s: string): Outcome {
    var f := Split(s, ',');
    var n' := n.(size := Atoi(f.text));
    if f.stop then Outcome(0, n') else ReadLocs(n', f.rest)
  }

  function ReadTime(n: Node, s: string): Outcome {
    var f := Split(s, ',');
    var n' := n.(time := Atoi(f.text));
    if f.stop then Outcome(-1, n') else ReadSize(n', f.rest)
  }

  function ReadDir(n: Node, s: string): Outcome {
    var f := Split(s, ',');
    var n' := n.(isDir := Atoi(f.text) != 0);
    if f.stop then Outcome(-1, n') else ReadTime(n', f.rest)
  }

  /** The text after a name of the given length: one character is skipped, whatever it is. */
  function AfterName(t: string, len: nat): string
    requires len <= |t|
  {
    if len == |t| then "" else t[len + 1..]
  }

  /** The length of the name is cast to unsigned, so that a negative one is longer than any text. */
  function Read(n: Node, s: string): Outcome {
    var f := Split(s, ',');
    var len := Atoi(f.text);
    if f.stop || len < 0 || |f.rest| < len then Outcome(-1, n)
    else ReadDir(n.(name := f.rest[..len]), AfterName(f.rest, len))
  }

  method DeserializeLocs(n0: Node, text: string) returns (rc: int, n: Node)
    ensures Outcome(rc, n) == ReadLocs(n0, text)
  {
    n := n0;
    var tmp, stop := text, false;
    while !stop
      invariant if stop then ReadLocs(n0, text) == Outcome(0, n) else ReadLocs(n0, text) == ReadLocs(n, tmp)
      decreases !stop, |tmp|
    {
      var ip, rest, last := Field(tmp, ',');
      if last {
        return -1, n;
      }
      var port;
      port, tmp, stop := Field(rest, ',');
      n := n.(locs := n.locs + {Address(ip, Atoi(port))});
    }
    rc := 0;
  }

  /** deserialize: fills in a node, as far as the text goes. */
  method Deserialize(n0: Node, buf: string) returns (rc: int, n: Node)
    ensures Outcome(rc, n) == Read(n0, buf)
  {
    n := n0;
    var text, tmp, stop := Field(buf, ',');
    var namelen := Atoi(text);
    if stop || namelen < 0 || |tmp| < namelen {
      return -1, n;
    }
    n := n.(name := tmp[..namelen]);
    tmp := AfterName(tmp, namelen);
    assert Read(n0, buf) == ReadDir(n, tmp);
    text, tmp, stop := Field(tmp, ',');
    n := n.(isDir := Atoi(text) != 0);
    if stop {
      return -1, n;
    }
    assert Read(n0, buf) == ReadTime(n, tmp);
    text, tmp, stop := Field(tmp, ',');
    n := n.(time := Atoi(text));
    if stop {
      return -1, n;
    }
    assert Read(n0, buf) == ReadSize(n, tmp);
    text, tmp, stop := Field(tmp, ',');
    n := n.(size := Atoi(text));
    if stop {
      return 0, n;
    }
    rc, n := DeserializeLocs(n, tmp);
  }

  // ----- The round trip

  ghost predicate NoCommaIps(locs: set<Address>) { forall a :: a in locs ==> Free(a.ip, ',') }

  ghost function Elements(locs: seq<Address>): set<Address> { set a | a in locs }

  /** A printed number in front of more fields. */
  lemma NumberField(v: int, t: string)
    ensures Split(Printed(v) + "," + t, ',').rest == t && !Split(Printed(v) + "," + t, ',').stop
    ensures Atoi(Split(Printed(v) + "," + t, ',').text) == v
  {
    FieldIs(Printed(v), t, ',');
    AtoiBack(v);
  }

  lemma LocsComma(locs: seq<Address>)
    requires locs != []
    ensures LocsText(locs) != "" && LocsText(locs)[0] == ','
  {
  }

  lemma CommaFirst(a: string, more: string)
    requires more != "" && more[0] == ','
    ensures a + more == a + "," + more[1..]
  {
  }

  /** The text of more locations ends a printed number. */
  lemma NumberEnd(v: int, locs: seq<Address>)
    ensures var f := Split(Printed(v) + LocsText(locs), ',');
      Atoi(f.text) == v && f.stop == (locs == []) && (locs != [] ==> f.rest == LocsText(locs)[1..])
  {
    if locs == [] {
      NumberLast(v);
    } else {
      LocsComma(locs);
      CommaFirst(Printed(v), LocsText(locs));
      NumberField(v, LocsText(locs)[1..]);
    }
  }

  lemma NumberLast(v: int)
    ensures Split(Printed(v) + LocsText([]), ',').stop && Atoi(Split(Printed(v) + LocsText([]), ',').text) == v
  {
    LastIs(Printed(v), ',');
    assert Printed(v) + LocsText([]) == Printed(v);
    AtoiBack(v);
  }

  lemma AfterComma(a: string, b: string, c: string)
    ensures ("," + a + "," + b + c)[1..] == a + "," + (b + c)
  {
  }

  lemma FirstLoc(locs: seq<Address>)
    requires locs != [] && Free(locs[0].ip, ',')
    ensures Split(LocsText(locs)[1..], ',') == Cut(locs[0].ip, Printed(locs[0].port) + LocsText(locs[1..]), false)
  {
    var t := Printed(locs[0].port) + LocsText(locs[1..]);
    FieldIs(locs[0].ip, t, ',');
    AfterComma(locs[0].ip, Printed(locs[0].port), LocsText(locs[1..]));
  }

  lemma FirstElement(locs: seq<Address>, s: set<Address>)
    requires locs != []
    ensures locs[0] in Elements(locs) && Elements(locs[1..]) <= Elements(locs)
    ensures s + Elements(locs) == s + {locs[0]} + Elements(locs[1..])
    ensures locs[1..] == [] ==> Elements(locs[1..]) == {}
  {
    assert locs == [locs[0]] + locs[1..];
  }

  lemma {:induction false} ReadLocsText(n: Node, locs: seq<Address>)
    requires locs != [] && NoCommaIps(Elements(locs))
    ensures ReadLocs(n, LocsText(locs)[1..]) == Outcome(0, n.(locs := n.locs + Elements(locs)))
    decreases |locs|
  {
    FirstElement(locs, n.locs);
    FirstLoc(locs);
    NumberEnd(locs[0].port, locs[1..]);
    if |locs| > 1 {
      ReadLocsText(n.(locs := n.locs + {locs[0]}), locs[1..]);
    }
  }

  lemma ReadSizeText(n: Node, size: int, locs: seq<Address>)
    requires NoCommaIps(Elements(locs))
    ensures ReadSize(n, Printed(size) + LocsText(locs)) == Outcome(0, n.(size := size, locs := n.locs + Elements(locs)))
  {
    NumberEnd(size, locs);
    if locs != [] {
      ReadLocsText(n.(size := size), locs);
    } else {
      assert n.locs + Elements(locs) == n.locs;
    }
  }

  lemma ReadTimeText(n: Node, time: int, t: string)
    ensures ReadTime(n, Printed(time) + "," + t) == ReadSize(n.(time := time), t)
  {
    NumberField(time, t);
  }

  lemma ReadDirText(n: Node, isDir: bool, t: string)
    ensures ReadDir(n, Printed(Flag(isDir)) + "," + t) == ReadTime(n.(isDir := isDir), t)
  {
    NumberField(Flag(isDir), t);
  }

  lemma ReadNameText(n: Node, name: string, t: string)
    ensures Read(n, Printed(|name|) + "," + (name + "," + t)) == ReadDir(n.(name := name), t)
  {
    NumberField(|name|, name + "," + t);
    assert (name + "," + t)[..|name|] == name && (name + "," + t)[|name| + 1..] == t;
  }

  lemma Regroup(a: string, b: string, c: string, d: string, e: string, f: string)
    ensures a + "," + b + "," + c + "," + d + "," + e + f == a + "," + (b + "," + (c + "," + (d + "," + (e + f))))
  {
  }

  /** Reading what was printed gives the node back, whatever characters its name holds; the
      locations are added to those the reader's node had. */
  lemma ReadText(n: Node, m: Node, locs: seq<Address>)
    requires NoCommaIps(Elements(locs))
    ensures Read(m, Text(n, locs)) ==
      Outcome(0, Node(n.name, n.isDir, n.time, n.size, m.locs + Elements(locs), m.dir))
  {
    var l := LocsText(locs);
    Regroup(Printed(|n.name|), n.name, Printed(Flag(n.isDir)), Printed(n.time), Printed(n.size), l);
    var m1 := m.(name := n.name, isDir := n.isDir, time := n.time);
    ReadNameText(m, n.name, Printed(Flag(n.isDir)) + "," + (Printed(n.time) + "," + (Printed(n.size) + l)));
    ReadDirText(m.(name := n.name), n.isDir, Printed(n.time) + "," + (Printed(n.size) + l));
    ReadTimeText(m.(name := n.name, isDir := n.isDir), n.time, Printed(n.size) + l);
    ReadSizeText(m1, n.size, locs);
  }

  // ----- Which texts are accepted

  function Commas(s: string): nat
    decreases |s|
  {
    var f := Split(s, ',');
    if f.stop then 0 else 1 + Commas(f.rest)
  }

  lemma {:induction false} LocsAccepted(n: Node, s: string)
    ensures ReadLocs(n, s).rc == if Commas(s) % 2 == 1 then 0 else -1
    decreases |s|
  {
    var ip := Split(s, ',');
    if !ip.stop {
      var port := Split(ip.rest, ',');
      if !port.stop {
        LocsAccepted(n.(locs := n.locs + {Address(ip.text, Atoi(port.text))}), port.rest);
        assert Commas(s) == 2 + Commas(port.rest);
      }
    }
  }

  lemma SizeAccepted(n: Node, s: string)
    ensures ReadSize(n, s).rc == if Commas(s) % 2 == 0 then 0 else -1
  {
    var f := Split(s, ',');
    if !f.stop {
      LocsAccepted(n.(size := Atoi(f.text)), f.rest);
    }
  }

  lemma TimeAccepted(n: Node, s: string)
    ensures ReadTime(n, s).rc == if Commas(s) % 2 == 1 then 0 else -1
  {
    var f := Split(s, ',');
    if !f.stop {
      SizeAccepted(n.(time := Atoi(f.text)), f.rest);
    }
  }

  lemma DirAccepted(n: Node, s: string)
    ensures ReadDir(n, s).rc == if Commas(s) >= 2 && Commas(s) % 2 == 0 then 0 else -1
  {
    var f := Split(s, ',');
    if !f.stop {
      TimeAccepted(n.(isDir := Atoi(f.text) != 0), f.rest);
    }
  }

  /** deserialize returns 0 for exactly these texts: a length, a comma, a name of that length, one
      more character, and then fields whose commas are even in number and at least two. Otherwise
      it returns -1. */
  lemma Accepted(n: Node, s: string)
    ensures Read(n, s).rc == 0 || Read(n, s).rc == -1
    ensures Read(n, s).rc == 0 <==>
      var f, len := Split(s, ','), Atoi(Split(s, ',').text);
      !f.stop && 0 <= len <= |f.rest| && Commas(AfterName(f.rest, len)) >= 2 && Commas(AfterName(f.rest, len)) % 2 == 0
  {
    var f, len := Split(s, ','), Atoi(Split(s, ',').text);
    if !f.stop && 0 <= len <= |f.rest| {
      DirAccepted(n.(name := f.rest[..len]), AfterName(f.rest, len));
    }
  }
}
