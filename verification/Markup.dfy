/**
 * Turning message text into markup with clickable links, and taking the previewed link out of a
 * text. Which stretches of a text are links is the matcher's business: it returns ascending,
 * disjoint, non-empty ranges.
 */
module Markup {
  import opened Options
  import opened Text

  datatype Range = Range(start: nat, end: nat)

  /** What the matcher promises about the ranges from some place on. */
  ghost predicate Ranges(text: string, from: nat, matches: seq<Range>)
    decreases |matches|
  {
    if matches == [] then from <= |text|
    else from <= matches[0].start < matches[0].end <= |text| && Ranges(text, matches[0].end, matches[1..])
  }

  // --- escaping ---

  function Replace(s: string, c: char, with: string): string {
    if s == "" then "" else (if s[0] == c then with else [s[0]]) + Replace(s[1..], c, with)
  }

  /** The code replaces one character after the other. */
  function EscapeMarkup(s: string): string {
    Replace(Replace(Replace(s, '&', "&amp;"), '<', "&lt;"), '>', "&gt;")
  }

  function EscapeMarkupAttr(s: string): string {
    Replace(Replace(Replace(Replace(s, '&', "&amp;"), '<', "&lt;"), '>', "&gt;"), '"', "&quot;")
  }

  function EscapeChar(attr: bool, c: char): string {
    if c == '&' then "&amp;"
    else if c == '<' then "&lt;"
    else if c == '>' then "&gt;"
    else if c == '"' && attr then "&quot;"
    else [c]
  }

  function Escape(attr: bool, s: string): string {
    if s == "" then "" else EscapeChar(attr, s[0]) + Escape(attr, s[1..])
  }

  lemma {:induction false} ReplaceConcat(a: string, b: string, c: char, with: string)
    ensures Replace(a + b, c, with) == Replace(a, c, with) + Replace(b, c, with)
  {
    if a == "" {
      assert a + b == b;
    } else {
      assert (a + b)[1..] == a[1..] + b;
      ReplaceConcat(a[1..], b, c, with);
    }
  }

  lemma {:induction false} ReplaceNone(s: string, c: char, with: string)
    requires c !in s
    ensures Replace(s, c, with) == s
  {
    if s != "" {
      ReplaceNone(s[1..], c, with);
    }
  }

  /** Replacing one character after the other is one substitution for each character. */
  lemma {:induction false} EscapeIsPerCharacter(s: string)
    ensures EscapeMarkup(s) == Escape(false, s) && EscapeMarkupAttr(s) == Escape(true, s)
  {
    if s != "" {
      EscapeIsPerCharacter(s[1..]);
      assert s == [s[0]] + s[1..];
      EscapeOne(s[0], s[1..]);
    }
  }

  lemma EscapeOne(c: char, rest: string)
    ensures EscapeMarkup([c] + rest) == EscapeChar(false, c) + EscapeMarkup(rest)
    ensures EscapeMarkupAttr([c] + rest) == EscapeChar(true, c) + EscapeMarkupAttr(rest)
  {
    var amp, lt, gt := Replace([c], '&', "&amp;"), "&lt;", "&gt;";
    ReplaceConcat([c], rest, '&', "&amp;");
    ReplaceConcat(amp, Replace(rest, '&', "&amp;"), '<', lt);
    ReplaceConcat(Replace(amp, '<', lt), Replace(Replace(rest, '&', "&amp;"), '<', lt), '>', gt);
    ReplaceConcat(Replace(Replace(amp, '<', lt), '>', gt), EscapeMarkup(rest), '"', "&quot;");
    EscapeCharByReplacing(c);
  }

  lemma ReplaceOne(c: char, d: char, with: string)
    ensures Replace([c], d, with) == if c == d then with else [c]
  {
  }

  /** An escape holds none of the characters that are replaced after it. */
  lemma EscapesAreSafe()
    ensures '<' !in "&amp;" && '>' !in "&amp;" && '"' !in "&amp;"
    ensures '>' !in "&lt;" && '"' !in "&lt;" && '"' !in "&gt;"
  {
  }

  lemma EscapeCharByReplacing(c: char)
    ensures
      var replaced := Replace(Replace(Replace([c], '&', "&amp;"), '<', "&lt;"), '>', "&gt;");
      replaced == EscapeChar(false, c) && Replace(replaced, '"', "&quot;") == EscapeChar(true, c)
  {
    hide Replace;
    var amp, lt, gt, quot := "&amp;", "&lt;", "&gt;", "&quot;";
    EscapesAreSafe();
    ReplaceOne(c, '&', amp);
    ReplaceOne(c, '<', lt);
    ReplaceOne(c, '>', gt);
    ReplaceOne(c, '"', quot);
    if c == '&' {
      ReplaceNone(amp, '<', lt);
      ReplaceNone(amp, '>', gt);
      ReplaceNone(amp, '"', quot);
    } else if c == '<' {
      ReplaceNone(lt, '>', gt);
      ReplaceNone(lt, '"', quot);
    } else if c == '>' {
      ReplaceNone(gt, '"', quot);
    }
  }

  /** The escapes, spelled out. */
  lemma EscapesSpelled(c: char)
    ensures EscapeMarkup("&") == EscapeMarkupAttr("&") == "&amp;"
    ensures EscapeMarkup("<") == EscapeMarkupAttr("<") == "&lt;"
    ensures EscapeMarkup(">") == EscapeMarkupAttr(">") == "&gt;"
    ensures EscapeMarkup("\"") == "\"" && EscapeMarkupAttr("\"") == "&quot;"
    ensures c !in "&<>\"" ==> EscapeMarkup([c]) == EscapeMarkupAttr([c]) == [c]
  {
    hide EscapeMarkup, EscapeMarkupAttr;
    OneEscape('&');
    OneEscape('<');
    OneEscape('>');
    OneEscape('"');
    OneEscape(c);
    var specials := "&<>\"";
    assert specials[0] == '&' && specials[1] == '<' && specials[2] == '>' && specials[3] == '"';
  }

  lemma OneEscape(c: char)
    ensures EscapeMarkup([c]) == EscapeChar(false, c) && EscapeMarkupAttr([c]) == EscapeChar(true, c)
  {
    hide EscapeMarkup, EscapeMarkupAttr, EscapeChar;
    EscapeIsPerCharacter([c]);
    assert [c][1..] == "";
    assert Escape(false, "") == "" && Escape(true, "") == "";
    assert EscapeChar(false, c) + "" == EscapeChar(false, c) && EscapeChar(true, c) + "" == EscapeChar(true, c);
  }

  // --- printing ---

  const OPEN := "<a href=\""
  const MIDDLE := "\">"
  const CLOSE := "</a>"

  function Link(url: string): string { OPEN + EscapeMarkupAttr(url) + MIDDLE + EscapeMarkup(url) + CLOSE }

  /** A link, spelled out. */
  lemma LinkSpelled(url: string)
    ensures Link(url) == "<a href=\"" + Escape(true, url) + "\">" + Escape(false, url) + "</a>"
  {
    EscapeIsPerCharacter(url);
  }

  /** The markup of the text from some place on. */
  function MarkupFrom(text: string, from: nat, matches: seq<Range>): string
    requires Ranges(text, from, matches)
    decreases |matches|
  {
    if matches == [] then EscapeMarkup(text[from..])
    else
      var m := matches[0];
      EscapeMarkup(text[from..m.start]) + Link(text[m.start..m.end]) + MarkupFrom(text, m.end, matches[1..])
  }

  method TextToMarkup(text: string, matches: seq<Range>) returns (result: string)
    requires Ranges(text, 0, matches)
    ensures result == MarkupFrom(text, 0, matches)
  {
    hide EscapeMarkup, Link;
    result := "";
    var last: nat := 0;
    for i := 0 to |matches|
      invariant Ranges(text, last, matches[i..])
      invariant result + MarkupFrom(text, last, matches[i..]) == MarkupFrom(text, 0, matches)
    {
      var m := matches[i];
      assert matches[i..][1..] == matches[i + 1..];
      NothingToEscape(text[last..m.start]);
      ghost var before, rest := result, MarkupFrom(text, m.end, matches[i + 1..]);
      Associates(before, EscapeMarkup(text[last..m.start]), Link(text[m.start..m.end]), rest);
      if m.start > last {
        result := result + EscapeMarkup(text[last..m.start]);
      }
      result := result + Link(text[m.start..m.end]);
      last := m.end;
    }
    assert matches[|matches|..] == [];
    NothingToEscape(text[last..]);
    if last < |text| {
      result := result + EscapeMarkup(text[last..]);
    }
  }

  lemma NothingToEscape(s: string)
    ensures s == "" ==> EscapeMarkup(s) == ""
  {
  }

  lemma Associates(a: string, b: string, c: string, d: string)
    ensures a + (b + c + d) == a + b + c + d && (b == "" ==> a + b == a)
  {
  }

  // --- parsing back ---

  datatype Piece = Plain(c: char) | Anchor(href: string, caption: string)

  /** The character an escaped text starts with, and how long its escape is. */
  function Decode(m: string): Option<(char, nat)>
    requires m != ""
    ensures Decode(m).Some? ==> 1 <= Decode(m).value.1 <= |m|
  {
    if m[0] != '&' then Some((m[0], 1))
    else if "&amp;" <= m then Some(('&', 5))
    else if "&lt;" <= m then Some(('<', 4))
    else if "&gt;" <= m then Some(('>', 4))
    else if "&quot;" <= m then Some(('"', 6))
    else None
  }

  function Unescape(m: string): Option<string>
    decreases |m|
  {
    if m == "" then Some("")
    else
      var d := Decode(m);
      if d.None? then None
      else
        var rest := Unescape(m[d.value.1..]);
        if rest.None? then None else Some([d.value.0] + rest.value)
  }

  function Prepend(p: Piece, rest: Option<seq<Piece>>): Option<seq<Piece>> {
    if rest.None? then None else Some([p] + rest.value)
  }

  /** A link at the start of a markup: its raw reference, its raw label, and its length. */
  function RawLink(m: string): (r: Option<(string, string, nat)>)
    ensures r.Some? ==> 0 < r.value.2 <= |m|
  {
    if !(OPEN <= m) then None
    else
      var quote := IndexOf(m[|OPEN|..], '"');
      var rest := m[|OPEN|..][quote..];
      if !(MIDDLE <= rest) then None
      else
        var less := IndexOf(rest[|MIDDLE|..], '<');
        var tail := rest[|MIDDLE|..][less..];
        if !(CLOSE <= tail) then None
        else Some((m[|OPEN|..][..quote], rest[|MIDDLE|..][..less], |OPEN| + quote + |MIDDLE| + less + |CLOSE|))
  }

  function Parse(m: string): Option<seq<Piece>>
    decreases |m|
  {
    if m == "" then Some([])
    else if m[0] == '<' then
      var link := RawLink(m);
      if link.None? || Unescape(link.value.0).None? || Unescape(link.value.1).None? then None
      else Prepend(Anchor(Unescape(link.value.0).value, Unescape(link.value.1).value), Parse(m[link.value.2..]))
    else
      var d := Decode(m);
      if d.None? then None else Prepend(Plain(d.value.0), Parse(m[d.value.1..]))
  }

  // --- the printer is inverted ---

  /** The pieces of a text with links. */
  function Pieces(text: string, from: nat, matches: seq<Range>): seq<Piece>
    requires Ranges(text, from, matches)
    decreases |matches|
  {
    if matches == [] then Plains(text[from..])
    else
      var m := matches[0];
      var url := text[m.start..m.end];
      Plains(text[from..m.start]) + [Anchor(url, url)] + Pieces(text, m.end, matches[1..])
  }

  function Plains(s: string): seq<Piece> {
    if s == "" then [] else [Plain(s[0])] + Plains(s[1..])
  }

  /** The text that pieces show. */
  function Shown(pieces: seq<Piece>): string {
    if pieces == [] then ""
    else (match pieces[0] case Plain(c) => [c] case Anchor(_, caption) => caption) + Shown(pieces[1..])
  }

  lemma DecodeEscaped(attr: bool, c: char, rest: string)
    ensures EscapeChar(attr, c) != "" && EscapeChar(attr, c)[0] != '<' && (attr ==> '"' !in EscapeChar(attr, c))
    ensures '<' !in EscapeChar(attr, c)
    ensures Decode(EscapeChar(attr, c) + rest) == Some((c, |EscapeChar(attr, c)|))
  {
    var e := EscapeChar(attr, c);
    var m := e + rest;
    assert m[0] == e[0] && e <= m;
    if e != [c] {
      assert m[1] == e[1];
      assert "&amp;" <= m ==> m[1] == 'a';
      assert "&lt;" <= m ==> m[1] == 'l';
      assert "&gt;" <= m ==> m[1] == 'g';
    }
  }

  lemma {:induction false} EscapedHasNone(attr: bool, s: string)
    ensures '<' !in Escape(attr, s) && (attr ==> '"' !in Escape(attr, s))
    ensures Unescape(Escape(attr, s)) == Some(s)
  {
    if s != "" {
      EscapedHasNone(attr, s[1..]);
      DecodeEscaped(attr, s[0], Escape(attr, s[1..]));
      assert Escape(attr, s)[|EscapeChar(attr, s[0])|..] == Escape(attr, s[1..]);
      assert s == [s[0]] + s[1..];
    }
  }

  lemma LinkIsParsed(url: string, rest: string)
    ensures
      RawLink(Link(url) + rest) == Some((Escape(true, url), Escape(false, url), |Link(url)|))
  {
    hide RawLink, IndexOf, Escape, EscapeMarkup, EscapeMarkupAttr;
    EscapeIsPerCharacter(url);
    EscapedHasNone(true, url);
    EscapedHasNone(false, url);
    var href, caption := Escape(true, url), Escape(false, url);
    assert Link(url) + rest == OPEN + (href + (MIDDLE + (caption + (CLOSE + rest))));
    RawLinkOf(Link(url) + rest, href, caption, rest);
  }

  lemma RawLinkOf(m: string, href: string, caption: string, rest: string)
    requires '"' !in href && '<' !in caption
    requires m == OPEN + (href + (MIDDLE + (caption + (CLOSE + rest))))
    ensures RawLink(m) == Some((href, caption, |m| - |rest|))
  {
    hide IndexOf;
    var tail := CLOSE + rest;
    var middle := MIDDLE + (caption + tail);
    assert m[|OPEN|..] == href + middle;
    IndexOfConcat(href, '"', middle);
    assert middle[|MIDDLE|..] == caption + tail;
    IndexOfConcat(caption, '<', tail);
  }

  lemma {:induction false} PlainsAreParsed(s: string, rest: string)
    requires Parse(rest).Some?
    ensures Parse(EscapeMarkup(s) + rest) == Some(Plains(s) + Parse(rest).value)
    decreases |s|
  {
    hide Parse, EscapeMarkup, EscapeMarkupAttr, EscapeChar;
    EscapeIsPerCharacter(s);
    if s == "" {
      assert EscapeMarkup(s) + rest == rest && Plains(s) + Parse(rest).value == Parse(rest).value;
    } else {
      EscapeIsPerCharacter(s[1..]);
      PlainsAreParsed(s[1..], rest);
      CharIsParsed(s[0], Escape(false, s[1..]) + rest);
      assert EscapeMarkup(s) + rest == EscapeChar(false, s[0]) + (Escape(false, s[1..]) + rest);
      assert [Plain(s[0])] + (Plains(s[1..]) + Parse(rest).value) == Plains(s) + Parse(rest).value;
    }
  }

  lemma CharIsParsed(c: char, rest: string)
    ensures Parse(EscapeChar(false, c) + rest) == Prepend(Plain(c), Parse(rest))
  {
    hide Decode;
    DecodeEscaped(false, c, rest);
    var m := EscapeChar(false, c) + rest;
    assert m[0] == EscapeChar(false, c)[0] && m[|EscapeChar(false, c)|..] == rest;
  }

  /** Parsing the markup back gives the text and its links, each referring to what it shows. */
  lemma {:induction false} MarkupInverts(text: string, from: nat, matches: seq<Range>)
    requires Ranges(text, from, matches)
    ensures Parse(MarkupFrom(text, from, matches)) == Some(Pieces(text, from, matches))
    ensures Shown(Pieces(text, from, matches)) == text[from..]
    decreases |matches|
  {
    hide Parse, EscapeMarkup, Link, Plains, Shown;
    ParseNothing();
    if matches == [] {
      var s := text[from..];
      assert EscapeMarkup(s) + "" == EscapeMarkup(s) && Plains(s) + [] == Plains(s);
      PlainsAreParsed(s, "");
      PlainsShow(s, []);
    } else {
      var m := matches[0];
      var before, url := text[from..m.start], text[m.start..m.end];
      var rest, pieces := MarkupFrom(text, m.end, matches[1..]), Pieces(text, m.end, matches[1..]);
      MarkupInverts(text, m.end, matches[1..]);
      AnchorIsParsed(url, rest);
      PlainsAreParsed(before, Link(url) + rest);
      assert MarkupFrom(text, from, matches) == EscapeMarkup(before) + (Link(url) + rest);
      assert Pieces(text, from, matches) == Plains(before) + ([Anchor(url, url)] + pieces);
      PlainsShow(before, [Anchor(url, url)] + pieces);
      AnchorShows(url, pieces);
      assert text[from..] == before + (url + text[m.end..]);
    }
  }

  lemma ParseNothing()
    ensures Parse("") == Some([]) && Shown([]) == ""
  {
  }

  lemma AnchorShows(url: string, pieces: seq<Piece>)
    ensures Shown([Anchor(url, url)] + pieces) == url + Shown(pieces)
  {
  }

  lemma AnchorIsParsed(url: string, rest: string)
    ensures Parse(Link(url) + rest) == Prepend(Anchor(url, url), Parse(rest))
  {
    hide RawLink, Link, Escape;
    var m := Link(url) + rest;
    LinkIsParsed(url, rest);
    EscapedHasNone(true, url);
    EscapedHasNone(false, url);
    LinkStarts(url);
    assert m[0] == Link(url)[0] && m[|Link(url)|..] == rest;
  }

  lemma LinkStarts(url: string)
    ensures Link(url) != "" && Link(url)[0] == '<'
  {
  }

  lemma PlainShows(c: char, pieces: seq<Piece>)
    ensures Shown([Plain(c)] + pieces) == [c] + Shown(pieces)
  {
  }

  lemma {:induction false} PlainsShow(s: string, rest: seq<Piece>)
    ensures Shown(Plains(s) + rest) == s + Shown(rest)
    decreases |s|
  {
    hide Shown;
    if s == "" {
      assert Plains(s) + rest == rest && s + Shown(rest) == Shown(rest);
    } else {
      PlainsShow(s[1..], rest);
      PlainShows(s[0], Plains(s[1..]) + rest);
      assert Plains(s) + rest == [Plain(s[0])] + (Plains(s[1..]) + rest);
      assert s + Shown(rest) == [s[0]] + (s[1..] + Shown(rest));
    }
  }

  // --- the text beside a link preview ---

  datatype Preview = Preview(originalUrl: Option<string>, url: Option<string>)

  /** Links are compared without surrounding space, and with the scheme a bare "www." stands for. */
  function NormalizePreviewUrl(url: string): string {
    var trimmed := Trim(url);
    if |trimmed| >= 4 && Lower(trimmed[..4]) == "www." then "https://" + trimmed else trimmed
  }

  function Represented(preview: Preview): set<string> {
    (if preview.originalUrl.Some? then {NormalizePreviewUrl(preview.originalUrl.value)} else {})
    + (if preview.url.Some? then {NormalizePreviewUrl(preview.url.value)} else {})
  }

  /** A link without a scheme. */
  ghost predicate Bare(link: string) {
    |link| >= 4 && link[0] in "wW" && link[1] in "wW" && link[2] in "wW" && link[3] == '.'
  }

  /** Two links are one: the same but for space around them, or one has the scheme that the other
      leaves out. */
  ghost predicate SameLink(a: string, b: string) {
    || Trim(a) == Trim(b)
    || (Bare(Trim(a)) && Trim(b) == "https://" + Trim(a))
    || (Bare(Trim(b)) && Trim(a) == "https://" + Trim(b))
  }

  lemma BareIff(link: string)
    ensures Bare(link) <==> |link| >= 4 && Lower(link[..4]) == "www."
  {
    if |link| >= 4 {
      var low := Lower(link[..4]);
      assert low == [LowerChar(link[0]), LowerChar(link[1]), LowerChar(link[2]), LowerChar(link[3])];
      var w := "www.";
      assert low == w <==> low[0] == w[0] && low[1] == w[1] && low[2] == w[2] && low[3] == w[3];
      forall c: char
        ensures LowerChar(c) == 'w' <==> c in "wW"
      {
        assert "wW"[0] == 'w' && "wW"[1] == 'W';
      }
    }
  }

  /** Exactly such links are compared as equal. */
  lemma SameLinkIff(a: string, b: string)
    ensures NormalizePreviewUrl(a) == NormalizePreviewUrl(b) <==> SameLink(a, b)
  {
    hide Trim, Lower;
    BareIff(Trim(a));
    BareIff(Trim(b));
    SchemeCancels(Trim(a), Trim(b));
    SchemeIsNotBare(Trim(a));
    SchemeIsNotBare(Trim(b));
  }

  lemma SchemeCancels(a: string, b: string)
    ensures "https://" + a == "https://" + b ==> a == b
  {
    assert ("https://" + a)[8..] == a && ("https://" + b)[8..] == b;
  }

  lemma SchemeIsNotBare(link: string)
    ensures !Bare("https://" + link)
  {
    assert ("https://" + link)[0] == 'h';
  }

  /** What the preview represents: its own link and the one it came from. */
  ghost predicate Represents(preview: Preview, link: string) {
    || (preview.originalUrl.Some? && SameLink(link, preview.originalUrl.value))
    || (preview.url.Some? && SameLink(link, preview.url.value))
  }

  /** A place of the text is taken exactly when it lies in a link that the preview represents. */
  lemma TakenIff(text: string, matches: seq<Range>, preview: Preview, k: nat)
    ensures Taken(text, matches, Represented(preview), k) <==>
            exists i :: 0 <= i < |matches| && matches[i].start <= k < matches[i].end <= |text|
                        && Represents(preview, text[matches[i].start..matches[i].end])
  {
    hide NormalizePreviewUrl, SameLink;
    forall link
      ensures NormalizePreviewUrl(link) in Represented(preview) <==> Represents(preview, link)
    {
      if preview.originalUrl.Some? {
        SameLinkIff(link, preview.originalUrl.value);
      }
      if preview.url.Some? {
        SameLinkIff(link, preview.url.value);
      }
    }
  }

  /** Whether a place of the text lies in a link that the preview represents. */
  ghost predicate Taken(text: string, matches: seq<Range>, urls: set<string>, k: nat) {
    exists i :: 0 <= i < |matches| && matches[i].start <= k < matches[i].end <= |text|
                && NormalizePreviewUrl(text[matches[i].start..matches[i].end]) in urls
  }

  /** The characters of a stretch that are not taken. */
  ghost function Kept(text: string, matches: seq<Range>, urls: set<string>, from: nat, upto: nat): string
    requires from <= upto <= |text|
  {
    if from == upto then ""
    else
      Kept(text, matches, urls, from, upto - 1)
      + (if Taken(text, matches, urls, upto - 1) then "" else [text[upto - 1]])
  }

  method TextWithoutPreviewUrl(text: string, matches: seq<Range>, preview: Preview) returns (result: string)
    requires Ranges(text, 0, matches)
    ensures result == Kept(text, matches, Represented(preview), 0, |text|)
  {
    var urls := Represented(preview);
    hide NormalizePreviewUrl, Represented;
    if urls == {} {
      NoneTaken(text, matches, urls, 0, |text|);
      return text;
    }
    result := "";
    var last: nat := 0;
    Sorted(text, 0, matches);
    for i := 0 to |matches|
      invariant last <= |text| && (i < |matches| ==> last <= matches[i].start)
      invariant forall j :: i <= j < |matches| ==> last <= matches[j].start
      invariant result == Kept(text, matches, urls, 0, last)
      invariant forall j :: 0 <= j < i && matches[j].end > last ==>
                  NormalizePreviewUrl(text[matches[j].start..matches[j].end]) !in urls
    {
      var m := matches[i];
      if NormalizePreviewUrl(text[m.start..m.end]) in urls {
        NoneTakenBetween(text, matches, urls, i, last);
        NoneTaken(text, matches, urls, last, m.start);
        AllTaken(text, matches, urls, i);
        KeptConcat(text, matches, urls, 0, last, m.start);
        KeptConcat(text, matches, urls, 0, m.start, m.end);
        result := result + text[last..m.start];
        last := m.end;
      }
    }
    NoneTakenBetween(text, matches, urls, |matches|, last);
    NoneTaken(text, matches, urls, last, |text|);
    KeptConcat(text, matches, urls, 0, last, |text|);
    result := result + text[last..];
  }

  /** The ranges by position. */
  ghost predicate InOrder(text: string, matches: seq<Range>) {
    && (forall i :: 0 <= i < |matches| ==> matches[i].start < matches[i].end <= |text|)
    && (forall i, j :: 0 <= i < j < |matches| ==> matches[i].end <= matches[j].start)
  }

  lemma {:induction false} Sorted(text: string, from: nat, matches: seq<Range>)
    requires Ranges(text, from, matches)
    ensures InOrder(text, matches) && forall i :: 0 <= i < |matches| ==> from <= matches[i].start
    decreases |matches|
  {
    if matches != [] {
      Sorted(text, matches[0].end, matches[1..]);
      assert forall i :: 0 < i < |matches| ==> matches[i] == matches[1..][i - 1];
    }
  }

  lemma NoneTakenBetween(text: string, matches: seq<Range>, urls: set<string>, i: nat, last: nat)
    requires InOrder(text, matches) && i <= |matches| && last <= |text|
    requires forall j :: 0 <= j < i && matches[j].end > last ==>
               NormalizePreviewUrl(text[matches[j].start..matches[j].end]) !in urls
    ensures forall k: nat :: last <= k < (if i < |matches| then matches[i].start else |text|) ==>
              !Taken(text, matches, urls, k)
  {
  }

  lemma {:induction false} NoneTaken(text: string, matches: seq<Range>, urls: set<string>, from: nat, upto: nat)
    requires from <= upto <= |text|
    requires urls == {} || forall k: nat :: from <= k < upto ==> !Taken(text, matches, urls, k)
    ensures Kept(text, matches, urls, from, upto) == text[from..upto]
    decreases upto
  {
    if from < upto {
      NoneTaken(text, matches, urls, from, upto - 1);
      assert text[from..upto] == text[from..upto - 1] + [text[upto - 1]];
    }
  }

  lemma AllTaken(text: string, matches: seq<Range>, urls: set<string>, i: nat)
    requires InOrder(text, matches) && i < |matches|
    requires NormalizePreviewUrl(text[matches[i].start..matches[i].end]) in urls
    ensures Kept(text, matches, urls, matches[i].start, matches[i].end) == ""
  {
    AllTakenUpTo(text, matches, urls, i, matches[i].end);
  }

  lemma {:induction false} AllTakenUpTo(text: string, matches: seq<Range>, urls: set<string>, i: nat, upto: nat)
    requires InOrder(text, matches) && i < |matches| && matches[i].start <= upto <= matches[i].end
    requires NormalizePreviewUrl(text[matches[i].start..matches[i].end]) in urls
    ensures Kept(text, matches, urls, matches[i].start, upto) == ""
    decreases upto
  {
    if matches[i].start < upto {
      AllTakenUpTo(text, matches, urls, i, upto - 1);
    }
  }

  lemma {:induction false} KeptConcat(text: string, matches: seq<Range>, urls: set<string>, a: nat, b: nat, c: nat)
    requires a <= b <= c <= |text|
    ensures Kept(text, matches, urls, a, c) == Kept(text, matches, urls, a, b) + Kept(text, matches, urls, b, c)
    decreases c
  {
    if b < c {
      KeptConcat(text, matches, urls, a, b, c - 1);
    }
  }
}
