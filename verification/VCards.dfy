/** Unfolding the lines of a vCard: a line that starts with a space or a tab continues the one
    before it. */
module VCards {
  import opened Text

  // --- physical lines ---

  /** A line without its carriage return, when a line feed ended it. */
  function Strip(line: string): string {
    if line != "" && line[|line| - 1] == '\r' then line[..|line| - 1] else line
  }

  /** The lines of a text; a final line feed starts no further line. */
  function Lines(s: string): seq<string>
    decreases |s|
  {
    if s == "" then []
    else
      var end := IndexOf(s, '\n');
      if end == |s| then [s] else [Strip(s[..end])] + Lines(s[end + 1..])
  }

  predicate Continues(line: string) { line != "" && (line[0] == ' ' || line[0] == '\t') }

  // --- unfolding ---

  /** The finished lines and the one still growing. */
  datatype State = State(finished: seq<string>, carry: string)

  function Flush(s: State): seq<string> { if s.carry == "" then s.finished else s.finished + [s.carry] }

  function Step(s: State, line: string): State {
    if Continues(line) then State(s.finished, s.carry + TrimStart(line)) else State(Flush(s), line)
  }

  function Unfolding(lines: seq<string>): State {
    if lines == [] then State([], "") else Step(Unfolding(lines[..|lines| - 1]), lines[|lines| - 1])
  }

  /** The logical lines. */
  function Logical(lines: seq<string>): seq<string> { Flush(Unfolding(lines)) }

  function Unfold(vcard: string): string { Join(Logical(Lines(vcard)), '\n') }

  method UnfoldVcard(vcard: string) returns (result: string)
    ensures result == Unfold(vcard)
  {
    var lines := Lines(vcard);
    result := "";
    var carry := "";
    ghost var finished: seq<string> := [];
    for i := 0 to |lines|
      invariant Unfolding(lines[..i]) == State(finished, carry)
      invariant result == Join(finished, '\n') && "" !in finished
    {
      var line := lines[i];
      assert lines[..i + 1][..i] == lines[..i];
      if Continues(line) {
        carry := carry + TrimStart(line);
      } else {
        if carry != "" {
          JoinSnoc(finished, carry);
          if result != "" {
            result := result + "\n";
          }
          result := result + carry;
          finished := finished + [carry];
        }
        carry := line;
      }
    }
    assert lines[..|lines|] == lines;
    if carry != "" {
      JoinSnoc(finished, carry);
      if result != "" {
        result := result + "\n";
      }
      result := result + carry;
    }
  }

  lemma {:induction false} JoinSnoc(parts: seq<string>, last: string)
    requires "" !in parts
    ensures Join(parts + [last], '\n') == (if parts == [] then last else Join(parts, '\n') + "\n" + last)
    ensures Join(parts, '\n') == "" <==> parts == []
  {
    if parts != [] {
      assert parts[0] in parts && (parts + [last])[1..] == parts[1..] + [last];
      assert forall p :: p in parts[1..] ==> p in parts;
      JoinSnoc(parts[1..], last);
      if |parts| > 1 {
        assert parts[0] + ['\n'] + (Join(parts[1..], '\n') + "\n" + last)
               == parts[0] + ['\n'] + Join(parts[1..], '\n') + "\n" + last;
      }
    }
  }

  // --- what comes out ---

  /** A line that unfolding leaves alone. */
  ghost predicate Clean(line: string) { line != "" && !Continues(line) && '\n' !in line }

  lemma {:induction false} LinesHaveNoFeed(s: string)
    ensures forall line :: line in Lines(s) ==> '\n' !in line
    decreases |s|
  {
    if s != "" {
      var end := IndexOf(s, '\n');
      if end < |s| {
        LinesHaveNoFeed(s[end + 1..]);
        assert forall c :: c in Strip(s[..end]) ==> c in s[..end];
      }
    }
  }

  lemma {:induction false} TrimStartDrops(s: string)
    ensures TrimStart(s) != "" ==> !IsSpace(TrimStart(s)[0])
    ensures forall c :: c in TrimStart(s) ==> c in s
  {
    if s != "" && IsSpace(s[0]) {
      TrimStartDrops(s[1..]);
    }
  }

  lemma {:induction false} UnfoldingIsClean(lines: seq<string>)
    requires forall line :: line in lines ==> '\n' !in line
    ensures
      var s := Unfolding(lines);
      (forall line :: line in s.finished ==> Clean(line)) && (s.carry != "" ==> Clean(s.carry))
    decreases |lines|
  {
    if lines != [] {
      var line := lines[|lines| - 1];
      UnfoldingIsClean(lines[..|lines| - 1]);
      assert line in lines;
      TrimStartDrops(line);
    }
  }

  /** Every line that comes out is non-empty and starts with neither a space nor a tab. */
  lemma LogicalLinesAreClean(vcard: string)
    ensures forall line :: line in Logical(Lines(vcard)) ==> Clean(line)
  {
    LinesHaveNoFeed(vcard);
    UnfoldingIsClean(Lines(vcard));
  }

  lemma {:induction false} CleanLinesStay(lines: seq<string>)
    requires forall line :: line in lines ==> Clean(line)
    ensures Logical(lines) == lines
    ensures Unfolding(lines) == if lines == [] then State([], "") else State(lines[..|lines| - 1], lines[|lines| - 1])
    decreases |lines|
  {
    if lines != [] {
      var front := lines[..|lines| - 1];
      CleanLinesStay(front);
      assert lines[|lines| - 1] in lines && lines == front + [lines[|lines| - 1]];
    }
  }

  /** Reading joined lines back strips a carriage return from each but the last. */
  function Stripped(lines: seq<string>): seq<string> {
    if |lines| <= 1 then lines else [Strip(lines[0])] + Stripped(lines[1..])
  }

  lemma {:induction false} LinesOfJoin(lines: seq<string>)
    requires forall line :: line in lines ==> line != "" && '\n' !in line
    ensures Lines(Join(lines, '\n')) == Stripped(lines)
    decreases |lines|
  {
    hide Lines, Strip;
    if lines == [] {
      NoLines();
    } else {
      var first, rest := lines[0], Join(lines[1..], '\n');
      assert first in lines && (forall line :: line in lines[1..] ==> line in lines);
      if |lines| == 1 {
        OnlyLine(first);
        assert lines == [first];
      } else {
        LinesOfJoin(lines[1..]);
        FirstLine(first, rest);
        assert Join(lines, '\n') == first + "\n" + rest;
      }
    }
  }

  lemma OnlyLine(line: string)
    requires line != "" && '\n' !in line
    ensures Lines(line) == [line]
  {
    assert line + "" == line;
    IndexOfConcat(line, '\n', "");
  }

  ghost predicate EndsInReturn(line: string) { line != "" && line[|line| - 1] == '\r' }

  lemma {:induction false} StrippedIff(lines: seq<string>)
    ensures Stripped(lines) == lines <==> forall i :: 0 <= i < |lines| - 1 ==> !EndsInReturn(lines[i])
    decreases |lines|
  {
    if |lines| > 1 {
      StrippedIff(lines[1..]);
      assert lines == [lines[0]] + lines[1..];
      assert forall i :: 0 < i < |lines| - 1 ==> lines[i] == lines[1..][i - 1];
    }
  }

  function NonEmpty(lines: seq<string>): seq<string> {
    if lines == [] then []
    else NonEmpty(lines[..|lines| - 1]) + (if lines[|lines| - 1] == "" then [] else [lines[|lines| - 1]])
  }

  lemma {:induction false} NothingContinues(lines: seq<string>)
    requires forall line :: line in lines ==> !Continues(line)
    ensures Logical(lines) == NonEmpty(lines) && "" !in NonEmpty(lines)
    ensures lines != [] ==> Unfolding(lines) == State(NonEmpty(lines[..|lines| - 1]), lines[|lines| - 1])
    decreases |lines|
  {
    if lines != [] {
      assert lines[|lines| - 1] in lines;
      NothingContinues(lines[..|lines| - 1]);
    }
  }

  /** The length of the joined lines, counting a line feed for each. */
  function Total(lines: seq<string>): nat { if lines == [] then 0 else |lines[0]| + 1 + Total(lines[1..]) }

  lemma {:induction false} TotalOfJoin(lines: seq<string>)
    ensures lines != [] ==> |Join(lines, '\n')| + 1 == Total(lines)
    ensures lines == [] ==> Join(lines, '\n') == ""
  {
    if |lines| > 1 {
      TotalOfJoin(lines[1..]);
    }
  }

  lemma {:induction false} TotalSnoc(lines: seq<string>, last: string)
    ensures Total(lines + [last]) == Total(lines) + |last| + 1
  {
    if lines != [] {
      assert (lines + [last])[1..] == lines[1..] + [last];
      TotalSnoc(lines[1..], last);
    }
  }

  lemma {:induction false} TotalOfNonEmpty(lines: seq<string>)
    ensures Total(NonEmpty(lines)) <= Total(lines)
    decreases |lines|
  {
    if lines != [] {
      var front, last := lines[..|lines| - 1], lines[|lines| - 1];
      TotalOfNonEmpty(front);
      TotalSnoc(front, last);
      TotalSnoc(NonEmpty(front), last);
      assert lines == front + [last];
      assert NonEmpty(front) + [] == NonEmpty(front);
    }
  }

  lemma {:induction false} TotalOfStripped(lines: seq<string>)
    ensures |Stripped(lines)| == |lines| && Total(Stripped(lines)) <= Total(lines)
    ensures Stripped(lines) != lines ==> Total(Stripped(lines)) < Total(lines)
    decreases |lines|
  {
    if |lines| > 1 {
      TotalOfStripped(lines[1..]);
      assert lines == [lines[0]] + lines[1..];
    }
  }

  lemma {:induction false} StrippedContinuesNothing(lines: seq<string>)
    requires forall line :: line in lines ==> Clean(line)
    ensures forall line :: line in Stripped(lines) ==> !Continues(line)
    decreases |lines|
  {
    if |lines| > 1 {
      assert Clean(lines[0]);
      StrippedContinuesNothing(lines[1..]);
    }
  }

  /** Unfolding twice is unfolding once, exactly when no line that comes out, but perhaps the last,
      ends in a carriage return. */
  lemma UnfoldTwiceIff(vcard: string)
    ensures
      var lines := Logical(Lines(vcard));
      Unfold(Unfold(vcard)) == Unfold(vcard) <==> forall i :: 0 <= i < |lines| - 1 ==> !EndsInReturn(lines[i])
  {
    var lines := Logical(Lines(vcard));
    LogicalLinesAreClean(vcard);
    LinesOfJoin(lines);
    StrippedIff(lines);
    if Stripped(lines) == lines {
      CleanLinesStay(lines);
    } else {
      var again := Stripped(lines);
      StrippedContinuesNothing(lines);
      NothingContinues(again);
      TotalOfStripped(lines);
      TotalOfNonEmpty(again);
      TotalOfJoin(lines);
      TotalOfJoin(NonEmpty(again));
    }
  }

  lemma StripAddsNothing(line: string, c: char)
    requires c !in line
    ensures c !in Strip(line)
  {
  }

  lemma {:induction false} LinesAddNothing(s: string, c: char)
    requires c !in s
    ensures forall line :: line in Lines(s) ==> c !in line
    decreases |s|
  {
    hide Strip;
    if s != "" {
      var end := IndexOf(s, '\n');
      if end < |s| {
        assert c !in s[..end] && c !in s[end + 1..];
        LinesAddNothing(s[end + 1..], c);
        StripAddsNothing(s[..end], c);
      }
    }
  }

  lemma {:induction false} UnfoldingAddsNothing(lines: seq<string>, c: char)
    requires forall line :: line in lines ==> c !in line
    ensures var s := Unfolding(lines); (forall line :: line in s.finished ==> c !in line) && c !in s.carry
    decreases |lines|
  {
    if lines != [] {
      assert lines[|lines| - 1] in lines;
      UnfoldingAddsNothing(lines[..|lines| - 1], c);
      TrimStartDrops(lines[|lines| - 1]);
    }
  }

  /** In particular, on text without carriage returns. */
  lemma UnfoldIdempotent(vcard: string)
    requires '\r' !in vcard
    ensures Unfold(Unfold(vcard)) == Unfold(vcard)
  {
    LinesAddNothing(vcard, '\r');
    UnfoldingAddsNothing(Lines(vcard), '\r');
    UnfoldTwiceIff(vcard);
    var lines := Logical(Lines(vcard));
    assert forall i :: 0 <= i < |lines| ==> '\r' !in lines[i];
  }

  // --- folding ---

  /** A folded line: what stands before the first cut, and what stands after each cut. */
  datatype Chunk = Chunk(mark: char, text: string)
  datatype Folded = Folded(first: string, rest: seq<Chunk>)

  ghost predicate Plain(s: string) { '\n' !in s && '\r' !in s }

  ghost predicate Foldable(f: Folded) {
    && (f.first != "" ==> f.first[0] != ' ' && f.first[0] != '\t') && Plain(f.first)
    && forall c :: c in f.rest ==> (c.mark == ' ' || c.mark == '\t') && Plain(c.text)
  }

  function Physical(f: Folded): seq<string> { [f.first] + Continued(f.rest) }

  function Continued(rest: seq<Chunk>): seq<string> {
    if rest == [] then [] else Continued(rest[..|rest| - 1]) + [[rest[|rest| - 1].mark] + rest[|rest| - 1].text]
  }

  function PhysicalAll(folded: seq<Folded>): seq<string> {
    if folded == [] then [] else PhysicalAll(folded[..|folded| - 1]) + Physical(folded[|folded| - 1])
  }

  function Original(f: Folded): string
    decreases |f.rest|
  {
    if f.rest == [] then f.first else Original(f.(rest := f.rest[..|f.rest| - 1])) + f.rest[|f.rest| - 1].text
  }

  /** What unfolding makes of a folded line: it takes all white space after a cut away. */
  function Recovered(f: Folded): string
    decreases |f.rest|
  {
    if f.rest == [] then f.first
    else Recovered(f.(rest := f.rest[..|f.rest| - 1])) + TrimStart(f.rest[|f.rest| - 1].text)
  }

  function RecoveredAll(folded: seq<Folded>): seq<string> {
    seq(|folded|, i requires 0 <= i < |folded| => Recovered(folded[i]))
  }

  /** Each line with a line feed, or a carriage return and a line feed, after it. */
  function PrintLines(lines: seq<string>, crlf: bool): string {
    if lines == [] then "" else lines[0] + Return(crlf) + "\n" + PrintLines(lines[1..], crlf)
  }

  function Return(crlf: bool): string { if crlf then "\r" else "" }

  lemma StripEnded(line: string, crlf: bool)
    requires Plain(line)
    ensures '\n' !in line + Return(crlf) && Strip(line + Return(crlf)) == line
  {
  }

  lemma {:induction false} PrintedLinesAreRead(lines: seq<string>, crlf: bool)
    requires forall line :: line in lines ==> Plain(line)
    ensures Lines(PrintLines(lines, crlf)) == lines
  {
    hide Strip, IndexOf, Return, Lines, Plain;
    if lines == [] {
      NoLines();
    } else {
      var first, rest := lines[0], PrintLines(lines[1..], crlf);
      assert Plain(first) && (forall line :: line in lines[1..] ==> line in lines);
      PrintedLinesAreRead(lines[1..], crlf);
      StripEnded(first, crlf);
      FirstLine(first + Return(crlf), rest);
      assert PrintLines(lines, crlf) == first + Return(crlf) + "\n" + rest;
      assert lines == [first] + lines[1..];
    }
  }

  lemma NoLines()
    ensures Lines("") == []
  {
  }

  lemma FirstLine(before: string, rest: string)
    requires '\n' !in before
    ensures Lines(before + "\n" + rest) == [Strip(before)] + Lines(rest)
  {
    var s := before + "\n" + rest;
    assert s == before + ("\n" + rest);
    IndexOfConcat(before, '\n', "\n" + rest);
    assert s[|before| + 1..] == rest;
  }

  lemma TrimMark(mark: char, text: string)
    requires mark == ' ' || mark == '\t'
    ensures Continues([mark] + text) && TrimStart([mark] + text) == TrimStart(text)
  {
  }

  lemma {:induction false} UnfoldingOne(before: seq<string>, f: Folded)
    requires Foldable(f)
    ensures Unfolding(before + Physical(f)) == State(Logical(before), Recovered(f))
    decreases |f.rest|
  {
    if f.rest == [] {
      assert (before + Physical(f))[..|before|] == before;
    } else {
      var last := f.rest[|f.rest| - 1];
      var shorter := f.(rest := f.rest[..|f.rest| - 1]);
      assert last in f.rest;
      UnfoldingOne(before, shorter);
      TrimMark(last.mark, last.text);
      var line := [last.mark] + last.text;
      assert before + Physical(f) == (before + Physical(shorter)) + [line];
      assert (before + Physical(f))[..|before + Physical(shorter)|] == before + Physical(shorter);
    }
  }

  lemma NothingLogical()
    ensures Logical([]) == []
  {
  }

  lemma {:induction false} UnfoldingAll(folded: seq<Folded>)
    requires forall f :: f in folded ==> Foldable(f)
    ensures Logical(PhysicalAll(folded)) == NonEmpty(RecoveredAll(folded))
    ensures forall line :: line in PhysicalAll(folded) ==> Plain(line)
    decreases |folded|
  {
    hide Unfolding, Recovered, Original, Continued;
    NothingLogical();
    if folded != [] {
      var last, front := folded[|folded| - 1], folded[..|folded| - 1];
      assert last in folded;
      UnfoldingAll(front);
      UnfoldingOne(PhysicalAll(front), last);
      ContinuedIsPlain(last.rest);
      assert RecoveredAll(folded) == RecoveredAll(front) + [Recovered(last)];
      assert RecoveredAll(folded)[..|front|] == RecoveredAll(front);
    }
  }

  lemma {:induction false} ContinuedIsPlain(rest: seq<Chunk>)
    requires forall c :: c in rest ==> (c.mark == ' ' || c.mark == '\t') && Plain(c.text)
    ensures forall line :: line in Continued(rest) ==> Plain(line)
    decreases |rest|
  {
    if rest != [] {
      assert rest[|rest| - 1] in rest;
      ContinuedIsPlain(rest[..|rest| - 1]);
    }
  }

  /** Unfolding recovers folded lines, but for the white space after each cut and for lines that come
      out empty; those that were not empty before the first cut all come out. */
  lemma UnfoldRecovers(folded: seq<Folded>, crlf: bool)
    requires forall f :: f in folded ==> Foldable(f)
    ensures Unfold(PrintLines(PhysicalAll(folded), crlf)) == Join(NonEmpty(RecoveredAll(folded)), '\n')
    ensures (forall f :: f in folded ==> f.first != "") ==> NonEmpty(RecoveredAll(folded)) == RecoveredAll(folded)
  {
    UnfoldingAll(folded);
    PrintedLinesAreRead(PhysicalAll(folded), crlf);
    if forall f :: f in folded ==> f.first != "" {
      forall i | 0 <= i < |folded|
        ensures RecoveredAll(folded)[i] != ""
      {
        assert folded[i] in folded;
        FirstStays(folded[i]);
      }
      NoneDropped(RecoveredAll(folded));
    }
  }

  lemma {:induction false} FirstStays(f: Folded)
    ensures |f.first| <= |Recovered(f)|
    decreases |f.rest|
  {
    if f.rest != [] {
      FirstStays(f.(rest := f.rest[..|f.rest| - 1]));
    }
  }

  lemma {:induction false} NoneDropped(lines: seq<string>)
    requires forall i :: 0 <= i < |lines| ==> lines[i] != ""
    ensures NonEmpty(lines) == lines
    decreases |lines|
  {
    if lines != [] {
      NoneDropped(lines[..|lines| - 1]);
    }
  }

  /** A line loses one carriage return at its end, no more, and nothing else. */
  lemma StripSpelled(line: string)
    ensures Strip(line + "\r") == line
    ensures !EndsInReturn(line) ==> Strip(line) == line
  {
  }

  /** So a line comes back unchanged exactly when no cut stands before white space. */
  lemma {:induction false} RecoveredIff(f: Folded)
    ensures |Recovered(f)| <= |Original(f)|
    ensures Recovered(f) == Original(f) <==> forall c :: c in f.rest && c.text != "" ==> !IsSpace(c.text[0])
    decreases |f.rest|
  {
    if f.rest != [] {
      var last, shorter := f.rest[|f.rest| - 1], f.(rest := f.rest[..|f.rest| - 1]);
      RecoveredIff(shorter);
      TrimStartShorter(last.text);
      assert f.rest == shorter.rest + [last];
      assert forall c :: c in f.rest <==> c in shorter.rest || c == last;
      if Recovered(f) == Original(f) {
        assert |TrimStart(last.text)| == |last.text| && |Recovered(shorter)| == |Original(shorter)|;
        assert Recovered(shorter) == Recovered(f)[..|Recovered(shorter)|] == Original(shorter);
      }
    }
  }

  lemma {:induction false} TrimStartShorter(s: string)
    ensures |TrimStart(s)| <= |s| && (TrimStart(s) == s <==> s == "" || !IsSpace(s[0]))
    ensures s != "" && IsSpace(s[0]) ==> |TrimStart(s)| < |s|
  {
    if s != "" && IsSpace(s[0]) {
      TrimStartShorter(s[1..]);
    }
  }
}
