/** The string operations the program takes from its standard library: trimming,
    ASCII lowercasing, lexicographic sorting without duplicates, and joining. */
module Text {
  // --- characters ---

  function LowerChar(c: char): char {
    if 'A' <= c <= 'Z' then ((c as int) + 32) as char else c
  }

  function Lower(s: string): (r: string)
    ensures |r| == |s| && forall i :: 0 <= i < |s| ==> r[i] == LowerChar(s[i])
  {
    seq(|s|, i requires 0 <= i < |s| => LowerChar(s[i]))
  }

  /** Unicode White_Space, the class that trimming removes. */
  predicate IsSpace(c: char) {
    || '\t' <= c <= '\r' || c == ' ' || c == '\U{85}' || c == '\U{A0}' || c == '\U{1680}'
    || '\U{2000}' <= c <= '\U{200A}' || c == '\U{2028}' || c == '\U{2029}' || c == '\U{202F}'
    || c == '\U{205F}' || c == '\U{3000}'
  }

  predicate IsDigit(c: char) {
    '0' <= c <= '9'
  }

  /** The three classes of characters, spelled out. */
  lemma CharactersSpelled(c: char)
    ensures Lower("ABCDEFGHIJKLMNOPQRSTUVWXYZ") == "abcdefghijklmnopqrstuvwxyz"
    ensures c !in "ABCDEFGHIJKLMNOPQRSTUVWXYZ" ==> Lower([c]) == [c]
    ensures IsDigit(c) <==> c in "0123456789"
    ensures IsSpace(c) <==>
              c in "\U{09}\U{0A}\U{0B}\U{0C}\U{0D}\U{20}\U{85}\U{A0}\U{1680}"
              || c in "\U{2000}\U{2001}\U{2002}\U{2003}\U{2004}\U{2005}\U{2006}\U{2007}\U{2008}\U{2009}\U{200A}"
              || c in "\U{2028}\U{2029}\U{202F}\U{205F}\U{3000}"
  {
    LowerSpelled(c);
    DigitsSpelled(c);
    SpacesSpelled(c);
  }

  lemma LowerSpelled(c: char)
    ensures Lower("ABCDEFGHIJKLMNOPQRSTUVWXYZ") == "abcdefghijklmnopqrstuvwxyz"
    ensures c !in "ABCDEFGHIJKLMNOPQRSTUVWXYZ" ==> Lower([c]) == [c]
  {
    var upper := "ABCDEFGHIJKLMNOPQRSTUVWXYZ";
    if 'A' <= c <= 'Z' {
      assert upper[c as int - 'A' as int] == c;
    }
  }

  lemma DigitsSpelled(c: char)
    ensures IsDigit(c) <==> c in "0123456789"
  {
    var digits := "0123456789";
    if IsDigit(c) {
      assert digits[c as int - '0' as int] == c;
    }
  }

  lemma SpacesSpelled(c: char)
    ensures IsSpace(c) <==>
              c in "\U{09}\U{0A}\U{0B}\U{0C}\U{0D}\U{20}\U{85}\U{A0}\U{1680}"
              || c in "\U{2000}\U{2001}\U{2002}\U{2003}\U{2004}\U{2005}\U{2006}\U{2007}\U{2008}\U{2009}\U{200A}"
              || c in "\U{2028}\U{2029}\U{202F}\U{205F}\U{3000}"
  {
    var low := "\U{09}\U{0A}\U{0B}\U{0C}\U{0D}\U{20}\U{85}\U{A0}\U{1680}";
    var middle := "\U{2000}\U{2001}\U{2002}\U{2003}\U{2004}\U{2005}\U{2006}\U{2007}\U{2008}\U{2009}\U{200A}";
    var high := "\U{2028}\U{2029}\U{202F}\U{205F}\U{3000}";
    if '\t' <= c <= '\r' {
      assert low[c as int - 9] == c;
    } else if '\U{2000}' <= c <= '\U{200A}' {
      assert middle[c as int - 0x2000] == c;
    } else if IsSpace(c) {
      assert c in [low[5], low[6], low[7], low[8]] || c in [high[0], high[1], high[2], high[3], high[4]];
    }
  }

  // --- trimming and filtering ---

  function TrimStart(s: string): string {
    if s != "" && IsSpace(s[0]) then TrimStart(s[1..]) else s
  }

  function TrimEnd(s: string): string {
    if s != "" && IsSpace(s[|s| - 1]) then TrimEnd(s[..|s| - 1]) else s
  }

  function Trim(s: string): string {
    TrimEnd(TrimStart(s))
  }

  predicate Trimmed(s: string) {
    s != "" ==> !IsSpace(s[0]) && !IsSpace(s[|s| - 1])
  }

  lemma {:induction false} TrimStartShape(s: string)
    ensures TrimStart(s) != "" ==> !IsSpace(TrimStart(s)[0])
  {
    if s != "" && IsSpace(s[0]) {
      TrimStartShape(s[1..]);
    }
  }

  lemma {:induction false} TrimEndShape(s: string)
    ensures TrimEnd(s) <= s
    ensures TrimEnd(s) != "" ==> !IsSpace(TrimEnd(s)[|TrimEnd(s)| - 1])
  {
    if s != "" && IsSpace(s[|s| - 1]) {
      TrimEndShape(s[..|s| - 1]);
    }
  }

  lemma TrimShape(s: string)
    ensures Trimmed(Trim(s))
    ensures Trimmed(s) ==> Trim(s) == s
  {
    TrimStartShape(s);
    TrimEndShape(TrimStart(s));
  }

  ghost predicate Blank(s: string) { forall c :: c in s ==> IsSpace(c) }

  lemma BlankConcat(a: string, b: string)
    requires Blank(a) && Blank(b)
    ensures Blank(a + b)
  {
  }

  lemma BlankOne(c: char)
    requires IsSpace(c)
    ensures Blank([c])
  {
  }

  lemma TrimStartStep(s: string)
    ensures TrimStart(s) == if s != "" && IsSpace(s[0]) then TrimStart(s[1..]) else s
  {
  }

  lemma TrimEndStep(s: string)
    ensures TrimEnd(s) == if s != "" && IsSpace(s[|s| - 1]) then TrimEnd(s[..|s| - 1]) else s
  {
  }

  lemma Cons(s: string, rest: string, tail: string)
    requires s != "" && s[1..] == rest + tail
    ensures s == ([s[0]] + rest) + tail
  {
  }

  lemma Snoc(s: string, rest: string, head: string)
    requires s != "" && s[..|s| - 1] == head + rest
    ensures s == head + (rest + [s[|s| - 1]])
  {
  }

  lemma {:induction false} TrimStartCuts(s: string) returns (cut: string)
    ensures Blank(cut) && s == cut + TrimStart(s)
  {
    hide IsSpace, Blank, TrimStart;
    TrimStartStep(s);
    if s != "" && IsSpace(s[0]) {
      var rest := TrimStartCuts(s[1..]);
      BlankOne(s[0]);
      BlankConcat([s[0]], rest);
      Cons(s, rest, TrimStart(s));
      cut := [s[0]] + rest;
    } else {
      cut := "";
      NothingIsBlank();
    }
  }

  lemma NothingIsBlank()
    ensures Blank("")
  {
  }

  lemma {:induction false} TrimEndCuts(s: string) returns (cut: string)
    ensures Blank(cut) && s == TrimEnd(s) + cut
  {
    hide IsSpace, Blank, TrimEnd;
    TrimEndStep(s);
    if s != "" && IsSpace(s[|s| - 1]) {
      var rest := TrimEndCuts(s[..|s| - 1]);
      BlankOne(s[|s| - 1]);
      BlankConcat(rest, [s[|s| - 1]]);
      Snoc(s, rest, TrimEnd(s));
      cut := rest + [s[|s| - 1]];
    } else {
      cut := "";
      NothingIsBlank();
    }
  }

  /** Trimming cuts white space off both ends and nothing else. */
  lemma TrimIff(s: string, t: string)
    ensures Trim(s) == t <==> Trimmed(t) && exists a, b :: Blank(a) && Blank(b) && s == a + t + b
  {
    TrimShape(s);
    var a := TrimStartCuts(s);
    var b := TrimEndCuts(TrimStart(s));
    assert s == a + Trim(s) + b;
    if Trimmed(t) && exists a, b :: Blank(a) && Blank(b) && s == a + t + b {
      var x, y :| Blank(x) && Blank(y) && s == x + t + y;
      TrimmedOnce(s, a, Trim(s), b, x, t, y);
    }
  }

  /** There is one way to cut white space off both ends. */
  lemma TrimmedOnce(s: string, a: string, t: string, b: string, x: string, u: string, y: string)
    requires Blank(a) && Blank(b) && Blank(x) && Blank(y) && Trimmed(t) && Trimmed(u)
    requires s == a + t + b == x + u + y
    ensures t == u
  {
    Inside(s, a, t, b);
    Inside(s, x, u, y);
    if t != "" && u != "" {
      FirstMark(s, a, t, b);
      FirstMark(s, x, u, y);
      assert |a| == |x| && |a| + |t| == |x| + |u|;
      assert t == s[|a|..|a| + |t|] && u == s[|x|..|x| + |u|];
    }
  }

  lemma Inside(s: string, x: string, u: string, y: string)
    requires s == x + u + y
    ensures forall c :: c in u ==> c in s
    ensures forall c :: c in s ==> c in x || c in u || c in y
  {
    forall c | c in u
      ensures c in s
    {
      var i :| 0 <= i < |u| && u[i] == c;
      assert s[|x| + i] == c;
    }
  }

  /** Where a string that is not blank begins and ends. */
  lemma FirstMark(s: string, a: string, t: string, b: string)
    requires Blank(a) && Blank(b) && t != "" && Trimmed(t) && s == a + t + b
    ensures |a| < |s| && !IsSpace(s[|a|]) && forall i :: 0 <= i < |a| ==> IsSpace(s[i])
    ensures !IsSpace(s[|a| + |t| - 1]) && forall i :: |a| + |t| <= i < |s| ==> IsSpace(s[i])
  {
    assert s[|a|] == t[0] && s[|a| + |t| - 1] == t[|t| - 1];
    assert forall i :: 0 <= i < |a| ==> s[i] == a[i] && a[i] in a;
    assert forall i :: |a| + |t| <= i < |s| ==> s[i] == b[i - |a| - |t|] && b[i - |a| - |t|] in b;
  }

  function Digits(s: string): (r: string)
    ensures forall c :: c in r ==> IsDigit(c)
  {
    if s == "" then ""
    else (if IsDigit(s[0]) then [s[0]] else "") + Digits(s[1..])
  }

  lemma {:induction false} DigitsOfDigits(s: string)
    requires forall c :: c in s ==> IsDigit(c)
    ensures Digits(s) == s
  {
    if s != "" {
      DigitsOfDigits(s[1..]);
      assert s == [s[0]] + s[1..];
    }
  }

  lemma {:induction false} DigitsConcat(a: string, b: string)
    ensures Digits(a + b) == Digits(a) + Digits(b)
  {
    if a == "" {
      assert a + b == b;
    } else {
      assert (a + b)[1..] == a[1..] + b;
      DigitsConcat(a[1..], b);
    }
  }

  lemma {:induction false} DigitsLower(s: string)
    ensures Digits(Lower(s)) == Digits(s)
  {
    if s != "" {
      assert Lower(s)[1..] == Lower(s[1..]);
      DigitsLower(s[1..]);
    }
  }

  lemma {:induction false} DigitsTrimStart(s: string)
    ensures Digits(TrimStart(s)) == Digits(s)
  {
    if s != "" && IsSpace(s[0]) {
      DigitsTrimStart(s[1..]);
    }
  }

  lemma {:induction false} DigitsTrimEnd(s: string)
    ensures Digits(TrimEnd(s)) == Digits(s)
  {
    if s != "" && IsSpace(s[|s| - 1]) {
      var last := [s[|s| - 1]];
      DigitsTrimEnd(s[..|s| - 1]);
      assert s == s[..|s| - 1] + last && last[1..] == "";
      DigitsConcat(s[..|s| - 1], last);
    }
  }

  // --- lexicographic order ---

  predicate LexLess(a: string, b: string) {
    b != "" && (a == "" || a[0] < b[0] || (a[0] == b[0] && LexLess(a[1..], b[1..])))
  }

  lemma {:induction false} LexTotal(a: string, b: string)
    ensures LexLess(a, b) || a == b || LexLess(b, a)
    ensures !(LexLess(a, b) && LexLess(b, a))
    ensures !LexLess(a, a)
  {
    if a != "" {
      LexTotal(a[1..], if b == "" then "" else b[1..]);
      if b != "" && a[0] == b[0] && a[1..] == b[1..] {
        assert a == [a[0]] + a[1..] == b;
      }
    }
  }

  /** A string is less than another one when it is a proper prefix of it, or when the first characters
      in which they differ are in order. */
  lemma {:induction false} LexLessIff(a: string, b: string)
    ensures LexLess(a, b) <==>
            exists k: nat :: k <= |a| && k < |b| && a[..k] == b[..k] && (k == |a| || a[k] < b[k])
  {
    if LexLess(a, b) {
      var k := LexWitness(a, b);
    }
    if k: nat :| k <= |a| && k < |b| && a[..k] == b[..k] && (k == |a| || a[k] < b[k]) {
      LexFromWitness(a, b, k);
    }
  }

  lemma {:induction false} LexWitness(a: string, b: string) returns (k: nat)
    requires LexLess(a, b)
    ensures k <= |a| && k < |b| && a[..k] == b[..k] && (k == |a| || a[k] < b[k])
  {
    if a == "" || a[0] < b[0] {
      k := 0;
    } else {
      var rest := LexWitness(a[1..], b[1..]);
      k := rest + 1;
      assert a[..k] == [a[0]] + a[1..][..rest] && b[..k] == [b[0]] + b[1..][..rest];
    }
  }

  lemma {:induction false} LexFromWitness(a: string, b: string, k: nat)
    requires k <= |a| && k < |b| && a[..k] == b[..k] && (k == |a| || a[k] < b[k])
    ensures LexLess(a, b)
  {
    if k > 0 {
      assert a[0] == a[..k][0] == b[..k][0] == b[0];
      assert a[1..][..k - 1] == a[..k][1..] && b[1..][..k - 1] == b[..k][1..];
      LexFromWitness(a[1..], b[1..], k - 1);
    }
  }

  lemma {:induction false} LexTransitive(a: string, b: string, c: string)
    requires LexLess(a, b) && LexLess(b, c)
    ensures LexLess(a, c)
  {
    if a != "" && a[0] == b[0] && b[0] == c[0] {
      LexTransitive(a[1..], b[1..], c[1..]);
    }
  }

  // --- sorting without duplicates ---

  ghost predicate Ascending(s: seq<string>) {
    forall i, j :: 0 <= i < j < |s| ==> LexLess(s[i], s[j])
  }

  function Insert(x: string, s: seq<string>): seq<string> {
    if s == [] || LexLess(x, s[0]) then [x] + s
    else if x == s[0] then s
    else [s[0]] + Insert(x, s[1..])
  }

  lemma {:induction false} InsertKeepsOrder(x: string, s: seq<string>)
    requires Ascending(s)
    ensures Ascending(Insert(x, s))
    ensures forall y :: y in Insert(x, s) <==> y == x || y in s
  {
    if s == [] {
    } else if LexLess(x, s[0]) {
      forall i | 0 <= i < |s|
        ensures LexLess(x, s[i])
      {
        if i > 0 { LexTransitive(x, s[0], s[i]); }
      }
    } else if x != s[0] {
      LexTotal(x, s[0]);
      InsertKeepsOrder(x, s[1..]);
      var rest := Insert(x, s[1..]);
      forall i | 0 <= i < |rest|
        ensures LexLess(s[0], rest[i])
      {
        assert rest[i] in rest;
        if rest[i] != x {
          var j :| 0 <= j < |s[1..]| && s[1..][j] == rest[i];
          assert s[1 + j] == rest[i];
        }
      }
      assert s == [s[0]] + s[1..];
    }
  }

  /** Sorting followed by removal of adjacent duplicates. */
  function SortDedup(s: seq<string>): seq<string> {
    if s == [] then [] else Insert(s[0], SortDedup(s[1..]))
  }

  lemma {:induction false} SortDedupShape(s: seq<string>)
    ensures Ascending(SortDedup(s))
    ensures forall x :: x in SortDedup(s) <==> x in s
  {
    if s != [] {
      SortDedupShape(s[1..]);
      InsertKeepsOrder(s[0], SortDedup(s[1..]));
      assert s == [s[0]] + s[1..];
    }
  }

  /** An ascending list is determined by its members. */
  lemma {:induction false} AscendingUnique(a: seq<string>, b: seq<string>)
    requires Ascending(a) && Ascending(b)
    requires forall x :: x in a <==> x in b
    ensures a == b
  {
    assert b == [] || b[0] in b;
    if a != [] {
      assert a[0] in b && b[0] in a;
      var i :| 0 <= i < |b| && b[i] == a[0];
      var j :| 0 <= j < |a| && a[j] == b[0];
      LexTotal(a[0], b[0]);
      assert a[0] == b[0];
      forall x
        ensures x in a[1..] <==> x in b[1..]
      {
        LexTotal(x, x);
        assert a == [a[0]] + a[1..] && b == [b[0]] + b[1..];
        assert x in a <==> x == a[0] || x in a[1..];
        assert x in b <==> x == b[0] || x in b[1..];
        if x == a[0] {
          assert x !in a[1..] && x !in b[1..];
        }
      }
      AscendingUnique(a[1..], b[1..]);
      assert a == [a[0]] + a[1..] && b == [b[0]] + b[1..];
    }
  }

  // --- joining ---

  function Join(parts: seq<string>, separator: char): string {
    if parts == [] then ""
    else if |parts| == 1 then parts[0]
    else parts[0] + [separator] + Join(parts[1..], separator)
  }

  ghost predicate Separable(parts: seq<string>, separator: char) {
    forall p :: p in parts ==> p != "" && separator !in p
  }

  /** Joining loses nothing when no part is empty or holds the separator. */
  lemma {:induction false} JoinInjective(a: seq<string>, b: seq<string>, separator: char)
    requires Separable(a, separator) && Separable(b, separator)
    requires Join(a, separator) == Join(b, separator)
    ensures a == b
  {
    assert (a == [] || a[0] in a) && (b == [] || b[0] in b);
    if a != [] && b != [] {
      var j := Join(a, separator);
      assert a[0] in a && b[0] in b;
      assert a[0] <= j && b[0] <= j;
      assert |a| > 1 ==> j[|a[0]|] == separator;
      assert |b| > 1 ==> j[|b[0]|] == separator;
      assert |a[0]| == |b[0]|;
      assert a[0] == j[..|a[0]|] == b[0];
      assert |a| > 1 <==> |j| > |a[0]|;
      assert |b| > 1 <==> |j| > |b[0]|;
      if |a| > 1 {
        assert j[|a[0]| + 1..] == Join(a[1..], separator) == Join(b[1..], separator);
        assert forall p :: p in a[1..] ==> p in a;
        assert forall p :: p in b[1..] ==> p in b;
        JoinInjective(a[1..], b[1..], separator);
      }
      assert a == [a[0]] + a[1..] && b == [b[0]] + b[1..];
    }
  }

  // --- splitting ---

  /** Index of the first `c`, or the length when there is none. */
  function IndexOf(s: string, c: char): (i: nat)
    ensures i <= |s| && c !in s[..i] && (i < |s| ==> s[i] == c)
  {
    if s == "" || s[0] == c then 0
    else
      var rest := IndexOf(s[1..], c);
      assert s[..1 + rest] == [s[0]] + s[1..][..rest];
      1 + rest
  }

  lemma IndexOfConcat(a: string, c: char, b: string)
    requires c !in a && (b == "" || b[0] == c)
    ensures IndexOf(a + b, c) == |a| && (a + b)[..|a|] == a && (a + b)[|a|..] == b
  {
    var s, i := a + b, IndexOf(a + b, c);
    assert forall k :: 0 <= k < |a| ==> s[k] == a[k] && a[k] in a;
    assert b != "" ==> s[|a|] == c;
  }

  /** The parts between the separators. */
  function Split(s: string, separator: char): seq<string>
    decreases |s|
  {
    var i := IndexOf(s, separator);
    if i == |s| then [s] else [s[..i]] + Split(s[i + 1..], separator)
  }

  lemma SplitFirst(head: string, separator: char, tail: string)
    requires separator !in head
    ensures Split(head + [separator] + tail, separator) == [head] + Split(tail, separator)
  {
    var s := head + [separator] + tail;
    assert s == head + ([separator] + tail);
    IndexOfConcat(head, separator, [separator] + tail);
    assert s[|head| + 1..] == tail;
  }

  lemma {:induction false} SplitConcat(a: string, separator: char, b: string)
    ensures Split(a + [separator] + b, separator) == Split(a, separator) + Split(b, separator)
    decreases |a|
  {
    hide Split, IndexOf;
    SplitShape(a, separator);
    if separator !in a {
      SplitFirst(a, separator, b);
    } else {
      var i := IndexOf(a, separator);
      var head, rest := a[..i], a[i + 1..];
      assert a == head + [separator] + rest;
      assert a + [separator] + b == head + [separator] + (rest + [separator] + b);
      SplitFirst(head, separator, rest + [separator] + b);
      SplitFirst(head, separator, rest);
      SplitConcat(rest, separator, b);
    }
  }

  lemma SplitShape(s: string, separator: char)
    ensures separator !in s ==> Split(s, separator) == [s]
    ensures separator in s ==> IndexOf(s, separator) < |s|
  {
    assert s[..|s|] == s;
  }

  lemma JoinOne(first: string, rest: seq<string>, separator: char)
    ensures Join([first] + rest, separator)
            == if rest == [] then first else first + [separator] + Join(rest, separator)
  {
    assert ([first] + rest)[1..] == rest;
  }

  lemma {:induction false} SplitInverts(s: string, separator: char)
    ensures Split(s, separator) != [] && Join(Split(s, separator), separator) == s
    decreases |s|
  {
    hide Split, Join, IndexOf;
    SplitShape(s, separator);
    if separator !in s {
      JoinOne(s, [], separator);
      assert [s] + [] == [s];
    } else {
      var i := IndexOf(s, separator);
      var head, rest := s[..i], s[i + 1..];
      assert s == head + [separator] + rest;
      SplitFirst(head, separator, rest);
      SplitInverts(rest, separator);
      JoinOne(head, Split(rest, separator), separator);
    }
  }

  function SplitAll(parts: seq<string>, separator: char): seq<string> {
    if parts == [] then [] else Split(parts[0], separator) + SplitAll(parts[1..], separator)
  }

  lemma {:induction false} SplitOfJoin(parts: seq<string>, separator: char)
    requires parts != []
    ensures Split(Join(parts, separator), separator) == SplitAll(parts, separator)
  {
    if |parts| == 1 {
      assert parts[1..] == [];
    } else {
      SplitOfJoin(parts[1..], separator);
      SplitConcat(parts[0], separator, Join(parts[1..], separator));
    }
  }

  /** Joined lists are the same exactly when their parts, split further at every separator, are. */
  lemma JoinEqualIff(a: seq<string>, b: seq<string>, separator: char)
    requires a != [] && b != []
    ensures Join(a, separator) == Join(b, separator) <==> SplitAll(a, separator) == SplitAll(b, separator)
  {
    SplitOfJoin(a, separator);
    SplitOfJoin(b, separator);
    SplitInverts(Join(a, separator), separator);
    SplitInverts(Join(b, separator), separator);
  }
}
