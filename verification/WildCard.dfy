/** The wildcard matcher for file names. */
module WildCard {

  // ----- What wildcards usually mean

  /** `*` stands for any characters, also none, and `?` for any one character. */
  predicate Usual(card: string, path: string)
    decreases |card|
  {
    if card == "" then path == ""
    else if card[0] == '*' then exists k :: 0 <= k <= |path| && Usual(card[1..], path[k..])
    else path != "" && (card[0] == '?' || card[0] == path[0]) && Usual(card[1..], path[1..])
  }

  // ----- What this matcher means

  /** How many `*` a card ends in. */
  function Stars(card: string): (n: nat)
    ensures n <= |card|
  {
    if card != "" && card[|card| - 1] == '*' then 1 + Stars(card[..|card| - 1]) else 0
  }

  /** A last `*` stands for one character at least, and nothing matches a card that ends in several. */
  predicate Meaning(card: string, path: string) {
    match Stars(card)
    case 0 => Usual(card, path)
    case 1 => Usual(card[..|card| - 1] + "?*", path)
    case _ => false
  }

  ghost predicate AllStars(s: string) { forall i :: 0 <= i < |s| ==> s[i] == '*' }

  lemma {:induction false} StarsOf(a: string, rest: string)
    ensures !AllStars(rest) ==> Stars(a + rest) == Stars(rest)
    ensures AllStars(rest) ==> Stars(a + rest) == Stars(a) + |rest| && Stars(rest) == |rest|
    decreases |rest|
  {
    if rest == "" {
      assert a + rest == a;
    } else {
      var front := rest[..|rest| - 1];
      assert (a + rest)[..|a + rest| - 1] == a + front;
      StarsOf(a, front);
      assert rest == front + [rest[|rest| - 1]];
    }
  }

  /** A card that begins with a character other than `*`. */
  lemma MeaningHead(card: string, path: string)
    requires card != "" && card[0] != '*'
    ensures Meaning(card, path) <==>
      path != "" && (card[0] == '?' || card[0] == path[0]) && Meaning(card[1..], path[1..])
  {
    assert card == [card[0]] + card[1..];
    StarsOf([card[0]], card[1..]);
    assert Stars([card[0]]) == 0 by {
      assert [card[0]][0] == card[0];
    }
    if Stars(card) == 1 {
      var body := card[..|card| - 1];
      assert (body + "?*")[1..] == card[1..][..|card| - 2] + "?*";
    }
  }

  lemma {:induction false} UsualStars(a: string, rest: string, path: string)
    requires a != "" && AllStars(a)
    ensures Usual(a + rest, path) <==> exists k :: 0 <= k <= |path| && Usual(rest, path[k..])
    decreases |a|
  {
    var b := a[1..];
    assert (a + rest)[1..] == b + rest;
    if b == "" {
      assert b + rest == rest;
    } else {
      forall k | 0 <= k <= |path|
        ensures Usual(b + rest, path[k..]) <==> exists j :: 0 <= j <= |path[k..]| && Usual(rest, path[k..][j..])
      {
        UsualStars(b, rest, path[k..]);
      }
      if exists k :: 0 <= k <= |path| && Usual(rest, path[k..]) {
        var k :| 0 <= k <= |path| && Usual(rest, path[k..]);
        assert path[k..][0..] == path[k..];
        assert Usual(b + rest, path[k..]);
      }
      if Usual(a + rest, path) {
        var k :| 0 <= k <= |path| && Usual(b + rest, path[k..]);
        var j :| 0 <= j <= |path[k..]| && Usual(rest, path[k..][j..]);
        assert path[k..][j..] == path[k + j..];
      }
    }
  }

  /** A card that begins with `*`, and has other characters. */
  lemma MeaningStars(a: string, rest: string, path: string)
    requires a != "" && AllStars(a) && rest != "" && rest[0] != '*'
    ensures Meaning(a + rest, path) <==> exists k :: 0 <= k <= |path| && Meaning(rest, path[k..])
  {
    StarsOf(a, rest);
    if Stars(rest) == 0 {
      UsualStars(a, rest, path);
    } else if Stars(rest) == 1 {
      var body := rest[..|rest| - 1] + "?*";
      assert (a + rest)[..|a + rest| - 1] + "?*" == a + body;
      UsualStars(a, body, path);
    }
  }

  /** A card of stars only. */
  lemma MeaningOnlyStars(card: string, path: string)
    requires card != "" && AllStars(card)
    ensures Meaning(card, path) <==> |card| == 1 && path != ""
  {
    StarsOf("", card);
    assert "" + card == card;
    if |card| == 1 {
      assert card[..0] + "?*" == "?*";
      assert "?*"[1..] == "*" && "*"[1..] == "";
      if path != "" {
        assert path[1..][|path| - 1..] == "";
        assert Usual("", path[1..][|path| - 1..]);
        assert Usual("*", path[1..]);
      }
    }
  }

  /** An empty name matches the empty card only. */
  lemma MeaningNoPath(card: string)
    requires card != ""
    ensures !Meaning(card, "")
  {
    if AllStars(card) {
      MeaningOnlyStars(card, "");
    } else {
      var i := FirstOther(card);
      assert card == card[..i] + card[i..];
      MeaningHead(card[i..], "");
      if i > 0 {
        MeaningStars(card[..i], card[i..], "");
      }
    }
  }

  function FirstOther(card: string): (i: nat)
    requires !AllStars(card)
    ensures i < |card| && card[i] != '*' && AllStars(card[..i])
  {
    if card[0] != '*' then 0
    else
      assert !AllStars(card[1..]) by {
        var k :| 0 <= k < |card| && card[k] != '*';
        assert card[1..][k - 1] == card[k];
      }
      var i := FirstOther(card[1..]);
      assert card[..i + 1] == ['*'] + card[1..][..i];
      1 + i
  }

  lemma UsualStar(path: string)
    ensures Usual("*", path) && (Usual("?*", path) <==> path != "")
  {
    assert "?*"[1..] == "*" && "*"[1..] == "";
    assert path[|path|..] == "" && Usual("", path[|path|..]);
    if path != "" {
      assert path[1..][|path| - 1..] == "" && Usual("", path[1..][|path| - 1..]);
    }
  }

  /** A last `*` takes no character or one at least. */
  lemma {:induction false} StarSplit(body: string, path: string)
    ensures Usual(body + "*", path) <==> Usual(body, path) || Usual(body + "?*", path)
    decreases |body|
  {
    if body == "" {
      assert body + "*" == "*" && body + "?*" == "?*";
      UsualStar(path);
    } else {
      var b := body[1..];
      assert (body + "*")[1..] == b + "*" && (body + "?*")[1..] == b + "?*";
      if body[0] == '*' {
        forall k | 0 <= k <= |path|
          ensures Usual(b + "*", path[k..]) <==> Usual(b, path[k..]) || Usual(b + "?*", path[k..])
        {
          StarSplit(b, path[k..]);
        }
      } else if path != "" {
        StarSplit(b, path[1..]);
      }
    }
  }

  /** Whatever matches does so in the usual sense. What matches only in the usual sense has a card that
      ends in several `*`, or in one that would have to stand for nothing. */
  lemma Sound(card: string, path: string)
    ensures Meaning(card, path) ==> Usual(card, path)
    ensures Usual(card, path) && !Meaning(card, path) ==>
      Stars(card) > 1 || (Stars(card) == 1 && Usual(card[..|card| - 1], path))
  {
    if Stars(card) == 1 {
      StarSplit(card[..|card| - 1], path);
      assert card[..|card| - 1] + "*" == card;
    }
  }

  // ----- Exactly which cards match in the usual sense

  /** The characters of a card that are not `*`: no shorter name matches. */
  function Least(card: string): nat {
    if card == "" then 0 else (if card[0] == '*' then 0 else 1) + Least(card[1..])
  }

  /** The shortest name that a card matches in the usual sense. */
  function Shortest(card: string): (path: string)
    ensures |path| == Least(card)
  {
    if card == "" then ""
    else if card[0] == '*' then Shortest(card[1..])
    else [if card[0] == '?' then 'a' else card[0]] + Shortest(card[1..])
  }

  lemma {:induction false} ShortestMatches(card: string)
    ensures Usual(card, Shortest(card))
  {
    if card != "" {
      ShortestMatches(card[1..]);
      if card[0] == '*' {
        assert Shortest(card)[0..] == Shortest(card);
      }
    }
  }

  lemma {:induction false} NoShorter(card: string, path: string)
    requires Usual(card, path)
    ensures |path| >= Least(card)
    decreases |card|
  {
    if card != "" {
      if card[0] == '*' {
        var k :| 0 <= k <= |path| && Usual(card[1..], path[k..]);
        NoShorter(card[1..], path[k..]);
      } else {
        NoShorter(card[1..], path[1..]);
      }
    }
  }

  lemma {:induction false} LeastPlus(a: string, b: string)
    ensures Least(a + b) == Least(a) + Least(b)
  {
    if a == "" {
      assert a + b == b;
    } else {
      assert (a + b)[1..] == a[1..] + b;
      LeastPlus(a[1..], b);
    }
  }

  /** The shortest name of a card that ends in `*` does not match here. */
  lemma ShortestFails(card: string)
    requires Stars(card) > 0
    ensures Usual(card, Shortest(card)) && !Meaning(card, Shortest(card))
  {
    ShortestMatches(card);
    if Stars(card) == 1 {
      var body := card[..|card| - 1];
      assert card == body + "*";
      assert "*"[1..] == "" && "?*"[1..] == "*";
      assert Least("*") == 0 && Least("?*") == 1;
      LeastPlus(body, "*");
      LeastPlus(body, "?*");
      if Usual(body + "?*", Shortest(card)) {
        NoShorter(body + "?*", Shortest(card));
      }
    }
  }

  /** A card matches exactly the names that it usually matches if and only if it does not end in `*`. */
  lemma CompleteIff(card: string)
    ensures (forall path :: Meaning(card, path) <==> Usual(card, path)) <==> card == "" || card[|card| - 1] != '*'
  {
    if Stars(card) > 0 {
      ShortestFails(card);
    }
  }

  /** The name a usually matches the cards a* and a**. Here it does not, and the second matches nothing. */
  lemma FailingNames()
    ensures Usual("a*", "a") && !Meaning("a*", "a")
    ensures Usual("a**", "a") && forall path :: !Meaning("a**", path)
  {
    assert Shortest("*") == "";
    assert Shortest("**") == "";
    assert "a*"[..1] == "a" && "a**"[..2] == "a*";
    ShortestFails("a*");
    ShortestFails("a**");
    assert "a*"[1..] == "*" && "a**"[1..] == "**";
  }

  /** Without wildcards a card matches itself only. */
  lemma {:induction false} PlainMeaning(card: string, path: string)
    requires !IsWild(card)
    ensures Meaning(card, path) <==> card == path
  {
    if card == "" {
    } else {
      MeaningHead(card, path);
      if path != "" {
        PlainMeaning(card[1..], path[1..]);
        assert card == [card[0]] + card[1..] && path == [path[0]] + path[1..];
      }
    }
  }

  predicate IsWild(card: string) { exists i :: 0 <= i < |card| && (card[i] == '*' || card[i] == '?') }

  /** isWildCard. */
  method IsWildCard(path: string) returns (wild: bool)
    ensures wild == IsWild(path)
  {
    for i := 0 to |path|
      invariant forall k :: 0 <= k < i ==> path[k] != '*'
    {
      if path[i] == '*' {
        return true;
      }
    }
    for i := 0 to |path|
      invariant forall k :: 0 <= k < i ==> path[k] != '*' && path[k] != '?'
    {
      if path[i] == '?' {
        return true;
      }
    }
    wild := false;
  }

  // ----- The matcher

  const NUL := 0 as char

  ghost predicate NoNul(s: string) { forall i :: 0 <= i < |s| ==> s[i] != NUL }

  /** The characters of a C string; behind the last one is a NUL. */
  function CharAt(s: string, i: nat): char { if i < |s| then s[i] else NUL }

  /** A pointer into a C string, as a string again: it ends at the first NUL. */
  function FromPointer(s: string, i: nat): string
    requires i <= |s|
    decreases |s| - i
  {
    if i == |s| || s[i] == NUL then "" else [s[i]] + FromPointer(s, i + 1)
  }

  lemma {:induction false} FromPointerIs(s: string, i: nat)
    requires i <= |s|
    ensures |FromPointer(s, i)| <= |s| - i
    ensures NoNul(s) ==> FromPointer(s, i) == s[i..]
    decreases |s| - i
  {
    if i < |s| && s[i] != NUL {
      FromPointerIs(s, i + 1);
    }
  }

  /** match. */
  method Match(card: string, path: string) returns (r: bool)
    ensures NoNul(card) && NoNul(path) ==> r == Meaning(card, path)
    decreases |card|, 1
  {
    var i, j := 0, 0;
    while i < |card| && j < |path|
      invariant i <= |card| && j <= |path|
      invariant Meaning(card, path) == Meaning(card[i..], path[j..])
    {
      if card[i] == '*' {
        r := MatchStar(card, path, i, j);
        return;
      }
      MeaningHead(card[i..], path[j..]);
      assert card[i..][1..] == card[i + 1..] && path[j..][1..] == path[j + 1..];
      if card[i] != '?' && card[i] != path[j] {
        return false;
      }
      i, j := i + 1, j + 1;
    }
    if i < |card| {
      MeaningNoPath(card[i..]);
      assert path[j..] == "";
    }
    r := i == |card| && j == |path|;
  }

  /** The case of `*`: tries the rest of the card at every position. */
  method MatchStar(card: string, path: string, i0: nat, j0: nat) returns (r: bool)
    requires i0 < |card| && j0 < |path| && card[i0] == '*'
    ensures NoNul(card) && NoNul(path) ==> r == Meaning(card[i0..], path[j0..])
    decreases |card|, 0
  {
    if i0 == |card| - 1 {
      MeaningOnlyStars(card[i0..], path[j0..]);
      return true;
    }
    var i := i0;
    while CharAt(card, i) == '*'
      invariant i0 <= i <= |card| && forall k :: i0 <= k < i ==> card[k] == '*'
      decreases |card| - i
    {
      i := i + 1;
    }
    ghost var rest := card[i..];
    for j := j0 to |path|
      invariant NoNul(card) && NoNul(path) && i < |card| ==> forall k :: j0 <= k < j ==> !Meaning(rest, path[k..])
    {
      if i < |card| {
        MeaningHead(rest, path[j..]);
      }
      if path[j] == CharAt(card, i) || CharAt(card, i) == '?' {
        FromPointerIs(card, i);
        FromPointerIs(path, j);
        r := Match(FromPointer(card, i), FromPointer(path, j));
        if r {
          Found(card, path, i0, i, j0, j);
          return;
        }
      }
    }
    r := false;
    NotFound(card, path, i0, i, j0);
  }

  lemma Found(card: string, path: string, i0: nat, i: nat, j0: nat, j: nat)
    requires i0 < i <= |card| && j0 <= j < |path| && forall k :: i0 <= k < i ==> card[k] == '*'
    requires path[j] == CharAt(card, i) || CharAt(card, i) == '?'
    requires CharAt(card, i) != '*' && (NoNul(card) && NoNul(path) ==> Meaning(card[i..], path[j..]))
    ensures NoNul(card) && NoNul(path) ==> Meaning(card[i0..], path[j0..])
  {
    if NoNul(card) && NoNul(path) {
      var a, rest, q := card[i0..i], card[i..], path[j0..];
      assert card[i0..] == a + rest;
      assert q[j - j0..] == path[j..];
      if rest != "" {
        MeaningStars(a, rest, q);
      }
    }
  }

  lemma NotFound(card: string, path: string, i0: nat, i: nat, j0: nat)
    requires i0 < i <= |card| && i0 + 1 < |card| && j0 < |path| && forall k :: i0 <= k < i ==> card[k] == '*'
    requires CharAt(card, i) != '*'
    requires NoNul(card) && NoNul(path) && i < |card| ==>
      forall k :: j0 <= k < |path| ==> !Meaning(card[i..], path[k..])
    ensures NoNul(card) && NoNul(path) ==> !Meaning(card[i0..], path[j0..])
  {
    if NoNul(card) && NoNul(path) {
      var a, rest, q := card[i0..i], card[i..], path[j0..];
      assert card[i0..] == a + rest;
      if rest == "" {
        assert a + rest == a;
        MeaningOnlyStars(a, q);
      } else {
        MeaningStars(a, rest, q);
        MeaningNoPath(rest);
        forall k | 0 <= k <= |q| ensures !Meaning(rest, q[k..]) {
          assert q[k..] == path[j0 + k..];
        }
      }
    }
  }
}
