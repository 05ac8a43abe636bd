/**
 * Pairing the two files of a Live Photo: among the attachments of a message, a picture and a video
 * with the same pairing key are one item when either carries the Live Photo flag.
 */
module LivePhotos {
  import opened Options
  import opened Text

  datatype Attachment = Attachment(mime: Option<string>, name: Option<string>, path: Option<string>,
                                   isLivePhoto: bool, pairingId: Option<string>)
  {
    predicate IsImage() { mime.Some? && "image/" <= mime.value }
    predicate IsVideo() { mime.Some? && "video/" <= mime.value }
  }

  datatype AttachmentGroup = Single(attachment: Attachment) | LivePhoto(still: Attachment, motion: Attachment)

  // --- the pairing key ---

  /** The last component of a path, unless that is the parent directory. */
  function FileName(path: string): Option<string> {
    var slash := IndexOf(path, '/');
    if slash < |path| && !Nameless(path[slash + 1..]) then FileName(path[slash + 1..])
    else if Nameless(path[..slash]) || path[..slash] == ".." then None
    else Some(path[..slash])
  }

  /** Only empty components and current directories. */
  predicate Nameless(path: string) {
    var slash := IndexOf(path, '/');
    path[..slash] in {"", "."} && (slash == |path| || Nameless(path[slash + 1..]))
  }

  /** The file name without its extension; a leading dot does not start one. */
  function FileStem(path: string): Option<string> {
    var name := FileName(path);
    if name.None? then None else Some(WithoutExtension(name.value))
  }

  function WithoutExtension(name: string): string {
    var dot := LastIndexOf(name, '.');
    if dot.None? || dot.value == 0 then name else name[..dot.value]
  }

  function LastIndexOf(s: string, c: char): (i: Option<nat>)
    ensures i.Some? ==> i.value < |s| && s[i.value] == c && c !in s[i.value + 1..]
    ensures i.None? ==> c !in s
  {
    if s == "" then None
    else if s[|s| - 1] == c then Some(|s| - 1)
    else
      var r := LastIndexOf(s[..|s| - 1], c);
      assert s == s[..|s| - 1] + [s[|s| - 1]];
      assert r.Some? ==> s[r.value + 1..] == s[..|s| - 1][r.value + 1..] + [s[|s| - 1]];
      r
  }

  function PairingKey(a: Attachment): Option<string> {
    if a.pairingId.Some? then a.pairingId
    else if a.name.None? then None
    else
      var stem := FileStem(a.name.value);
      if stem.Some? && stem.value == "" then None else stem
  }

  predicate Compatible(a: Attachment, b: Attachment) {
    && (a.isLivePhoto || b.isLivePhoto)
    && PairingKey(a).Some? && PairingKey(b).Some? && Lower(PairingKey(a).value) == Lower(PairingKey(b).value)
    && ((a.IsImage() && b.IsVideo()) || (a.IsVideo() && b.IsImage()))
  }

  // --- the key by the parts of the name ---

  /** A path component that is empty or the current directory. */
  ghost predicate NamesNothing(component: string) { component == "" || component == "." }

  /** The last of some path components that names anything, unless that is the parent directory. */
  ghost predicate LastNamed(parts: seq<string>, name: string) {
    exists k: nat :: LastNamedAt(parts, name, k)
  }

  ghost predicate LastNamedAt(parts: seq<string>, name: string, k: nat) {
    && k < |parts| && parts[k] == name && !NamesNothing(name) && name != ".."
    && forall j :: k < j < |parts| ==> NamesNothing(parts[j])
  }

  lemma {:induction false} NamelessIff(path: string)
    ensures Nameless(path) <==> forall p :: p in Split(path, '/') ==> NamesNothing(p)
    decreases |path|
  {
    var slash := IndexOf(path, '/');
    if slash < |path| {
      var head, rest := path[..slash], path[slash + 1..];
      NamelessIff(rest);
      assert Split(path, '/') == [head] + Split(rest, '/');
      HeadIsNameless(path);
      AllTrivial(head, Split(rest, '/'));
    } else {
      assert path[..slash] == path && Split(path, '/') == [path] && path in Split(path, '/');
    }
  }

  /** The file name is the last component that is neither empty nor the current directory, unless that
      is the parent directory. */
  lemma {:induction false} FileNameIff(path: string, name: string)
    ensures FileName(path) == Some(name) <==> LastNamed(Split(path, '/'), name)
    decreases |path|
  {
    var slash := IndexOf(path, '/');
    var head := path[..slash];
    HeadIsNameless(path);
    if slash == |path| {
      assert head == path;
      assert Split(path, '/') == [path];
      assert LastNamedAt([path], name, 0) <==> path == name && !NamesNothing(name) && name != "..";
    } else {
      var rest := path[slash + 1..];
      NamelessIff(rest);
      FileNameIff(rest, name);
      FirstOrRest(head, Split(rest, '/'), name);
      assert Split(path, '/') == [head] + Split(rest, '/');
    }
  }

  lemma AllTrivial(head: string, rest: seq<string>)
    ensures (forall p :: p in [head] + rest ==> NamesNothing(p)) <==>
            NamesNothing(head) && forall p :: p in rest ==> NamesNothing(p)
  {
    assert forall p :: p in [head] + rest <==> p == head || p in rest;
  }

  lemma HeadIsNameless(path: string)
    ensures var head := path[..IndexOf(path, '/')]; Nameless(head) <==> NamesNothing(head)
  {
    var head := path[..IndexOf(path, '/')];
    assert IndexOf(head, '/') == |head| && head[..|head|] == head;
  }

  lemma FirstOrRest(head: string, rest: seq<string>, name: string)
    ensures LastNamed([head] + rest, name) <==>
            if forall p :: p in rest ==> NamesNothing(p) then head == name && !NamesNothing(name) && name != ".."
            else LastNamed(rest, name)
  {
    var parts := [head] + rest;
    FirstPart(head, rest, name);
    if k: nat :| LastNamedAt(parts, name, k) {
      if k > 0 {
        LaterPart(head, rest, name, k - 1);
      }
    }
    if k: nat :| LastNamedAt(rest, name, k) {
      LaterPart(head, rest, name, k);
    }
  }

  lemma LaterPart(head: string, rest: seq<string>, name: string, k: nat)
    ensures LastNamedAt([head] + rest, name, k + 1) <==> LastNamedAt(rest, name, k)
  {
    var parts := [head] + rest;
    assert forall j :: 0 <= j < |rest| ==> rest[j] == parts[j + 1];
    assert forall j :: 0 < j < |parts| ==> parts[j] == rest[j - 1];
  }

  lemma FirstPart(head: string, rest: seq<string>, name: string)
    ensures LastNamedAt([head] + rest, name, 0) <==>
            head == name && !NamesNothing(name) && name != ".." && forall p :: p in rest ==> NamesNothing(p)
    ensures (forall p :: p in rest ==> NamesNothing(p)) ==> forall k: nat :: !LastNamedAt(rest, name, k)
  {
    var parts := [head] + rest;
    assert forall j :: 0 < j < |parts| ==> parts[j] == rest[j - 1] && parts[j] in rest;
    assert forall j :: 0 <= j < |rest| ==> rest[j] == parts[j + 1];
  }

  /** A stem is what stands before the last dot, if that dot is not the first character; otherwise it is
      the whole name. */
  ghost predicate Stem(name: string, stem: string) {
    || (stem == name && (name == "" || '.' !in name[1..]))
    || (stem != "" && exists extension :: '.' !in extension && name == stem + "." + extension)
  }

  lemma StemIff(name: string, stem: string)
    requires name != ""
    ensures WithoutExtension(name) == stem <==> Stem(name, stem)
  {
    var dot := LastIndexOf(name, '.');
    if dot.Some? && dot.value > 0 {
      assert name == name[..dot.value] + "." + name[dot.value + 1..];
      assert name[1..][dot.value - 1] == '.';
    }
    if stem != "" && exists extension :: '.' !in extension && name == stem + "." + extension {
      var extension :| '.' !in extension && name == stem + "." + extension;
      LastDot(stem, extension, name, dot);
    }
    if dot.Some? && dot.value == 0 {
      assert name[dot.value + 1..] == name[1..];
    }
    if dot.None? {
      assert forall c :: c in name[1..] ==> c in name;
    }
  }

  ghost predicate DotAfter(name: string, i: int) { 0 <= i < |name| && '.' in name[i + 1..] }

  lemma LastDot(stem: string, extension: string, name: string, dot: Option<nat>)
    requires '.' !in extension && name == stem + "." + extension && dot == LastIndexOf(name, '.')
    ensures dot == Some(|stem|) && name[..|stem|] == stem
  {
    assert name[|stem|] == '.' && name[|stem|] in name;
    forall i: int | 0 <= i < |stem|
      ensures DotAfter(name, i)
    {
      assert name[i + 1..][|stem| - i - 1] == '.';
    }
    var d: int := if dot.Some? then dot.value else 0;
    assert d < |stem| ==> DotAfter(name, d);
    assert forall i :: |stem| < i < |name| ==> name[i] == extension[i - |stem| - 1];
  }

  /** What a file is paired by: its pairing id, or without one the stem of its name. */
  ghost predicate HasKey(a: Attachment, key: string) {
    || a.pairingId == Some(key)
    || (a.pairingId.None? && a.name.Some?
        && exists file :: LastNamed(Split(a.name.value, '/'), file) && Stem(file, key))
  }

  lemma PairingKeyIff(a: Attachment, key: string)
    ensures PairingKey(a) == Some(key) <==> HasKey(a, key)
  {
    if a.pairingId.None? && a.name.Some? {
      forall file
        ensures FileName(a.name.value) == Some(file) <==> LastNamed(Split(a.name.value, '/'), file)
      {
        FileNameIff(a.name.value, file);
      }
      if FileName(a.name.value).Some? {
        StemIff(FileName(a.name.value).value, key);
        StemIff(FileName(a.name.value).value, "");
      }
    }
  }

  ghost predicate HasKind(a: Attachment, kind: string) { a.mime.Some? && kind + "/" <= a.mime.value }

  /** Two files fit exactly when one of them is flagged, they have one key, letter case ignored, and one
      is a picture and the other a video. */
  lemma FitIff(a: Attachment, b: Attachment)
    ensures Compatible(a, b) <==>
            && (a.isLivePhoto || b.isLivePhoto)
            && (exists k1, k2 :: HasKey(a, k1) && HasKey(b, k2) && Lower(k1) == Lower(k2))
            && ((HasKind(a, "image") && HasKind(b, "video")) || (HasKind(a, "video") && HasKind(b, "image")))
  {
    hide PairingKey, HasKey, Lower;
    KindsSpelled(a);
    KindsSpelled(b);
    forall key
      ensures PairingKey(a) == Some(key) <==> HasKey(a, key)
      ensures PairingKey(b) == Some(key) <==> HasKey(b, key)
    {
      PairingKeyIff(a, key);
      PairingKeyIff(b, key);
    }
  }

  lemma KindsSpelled(a: Attachment)
    ensures a.IsImage() <==> HasKind(a, "image")
    ensures a.IsVideo() <==> HasKind(a, "video")
  {
    assert "image" + "/" == "image/" && "video" + "/" == "video/";
  }

  // --- grouping ---

  predicate Takes(group: AttachmentGroup, a: Attachment) { group.Single? && Compatible(a, group.attachment) }

  function Paired(a: Attachment, existing: Attachment): AttachmentGroup {
    if existing.IsImage() then LivePhoto(existing, a) else LivePhoto(a, existing)
  }

  /** The groups after one more attachment: it joins the first group that takes it. */
  function Add(groups: seq<AttachmentGroup>, a: Attachment): seq<AttachmentGroup> {
    if groups == [] then [Single(a)]
    else if Takes(groups[0], a) then [Paired(a, groups[0].attachment)] + groups[1..]
    else [groups[0]] + Add(groups[1..], a)
  }

  function Grouped(attachments: seq<Attachment>): seq<AttachmentGroup> {
    if attachments == [] then []
    else Add(Grouped(attachments[..|attachments| - 1]), attachments[|attachments| - 1])
  }

  method GroupAttachments(attachments: seq<Attachment>) returns (groups: seq<AttachmentGroup>)
    ensures groups == Grouped(attachments)
  {
    groups := [];
    for i := 0 to |attachments|
      invariant groups == Grouped(attachments[..i])
    {
      var a := attachments[i];
      assert attachments[..i + 1][..i] == attachments[..i];
      var index := 0;
      while index < |groups| && !Takes(groups[index], a)
        invariant index <= |groups|
        invariant forall g :: 0 <= g < index ==> !Takes(groups[g], a)
      {
        index := index + 1;
      }
      if index < |groups| {
        AddJoins(groups, a, index);
        groups := groups[index := Paired(a, groups[index].attachment)];
      } else {
        AddAppends(groups, a);
        groups := groups + [Single(a)];
      }
    }
    assert attachments[..|attachments|] == attachments;
  }

  lemma {:induction false} AddJoins(groups: seq<AttachmentGroup>, a: Attachment, index: nat)
    requires index < |groups| && Takes(groups[index], a)
    requires forall g :: 0 <= g < index ==> !Takes(groups[g], a)
    ensures Add(groups, a) == groups[index := Paired(a, groups[index].attachment)]
    decreases groups
  {
    if index > 0 {
      AddJoins(groups[1..], a, index - 1);
    }
  }

  lemma {:induction false} AddAppends(groups: seq<AttachmentGroup>, a: Attachment)
    requires forall g :: 0 <= g < |groups| ==> !Takes(groups[g], a)
    ensures Add(groups, a) == groups + [Single(a)]
    decreases groups
  {
    if groups != [] {
      AddAppends(groups[1..], a);
    }
  }

  /** Add does one or the other. */
  lemma {:induction false} AddCases(groups: seq<AttachmentGroup>, a: Attachment) returns (index: nat)
    ensures index <= |groups| && forall g :: 0 <= g < index ==> !Takes(groups[g], a)
    ensures index < |groups| ==> Takes(groups[index], a)
    ensures Add(groups, a) == if index < |groups| then groups[index := Paired(a, groups[index].attachment)]
                              else groups + [Single(a)]
    decreases groups
  {
    index := 0;
    if groups == [] || Takes(groups[0], a) {
    } else {
      index := AddCases(groups[1..], a);
      index := index + 1;
    }
  }

  // --- what the grouping is ---

  /** The positions a group came from. */
  datatype Origin = One(first: nat) | Two(first: nat, second: nat)

  function Members(o: Origin): set<nat> { if o.One? then {o.first} else {o.first, o.second} }

  /** A group is made of the attachments at its positions; a pair is a picture and a video. */
  ghost predicate Made(attachments: seq<Attachment>, o: Origin, group: AttachmentGroup) {
    && (forall i :: i in Members(o) ==> i < |attachments|)
    && match o
       case One(i) => group == Single(attachments[i])
       case Two(i, j) =>
         && i < j && Compatible(attachments[i], attachments[j])
         && group.LivePhoto? && group.still.IsImage() && group.motion.IsVideo()
         && (group == LivePhoto(attachments[i], attachments[j]) || group == LivePhoto(attachments[j], attachments[i]))
  }

  /** Every position is in exactly one group, and the groups stand in the order of their first. */
  ghost predicate Partition(origins: seq<Origin>, n: nat) {
    && (forall g, h :: 0 <= g < h < |origins| ==> origins[g].first < origins[h].first)
    && (forall g, h :: 0 <= g < h < |origins| ==> Members(origins[g]) !! Members(origins[h]))
    && (forall i: nat :: i < n ==> Covered(origins, i))
  }

  ghost predicate Covered(origins: seq<Origin>, i: nat) {
    exists g :: 0 <= g < |origins| && i in Members(origins[g])
  }

  /** Two attachments that were left alone could not be paired. */
  ghost predicate Maximal(attachments: seq<Attachment>, origins: seq<Origin>) {
    forall g, h :: 0 <= g < |origins| && 0 <= h < |origins| && g != h && origins[g].One? && origins[h].One?
                   && origins[g].first < |attachments| && origins[h].first < |attachments| ==>
      !Compatible(attachments[origins[g].first], attachments[origins[h].first])
  }

  ghost predicate TakenBefore(origins: seq<Origin>, i: nat, j: nat) {
    exists g :: 0 <= g < |origins| && origins[g].Two? && i in Members(origins[g]) && origins[g].second < j
  }

  /** The later file of a pair took the earliest partner that was still free. */
  ghost predicate Earliest(attachments: seq<Attachment>, origins: seq<Origin>) {
    forall g, i :: 0 <= g < |origins| && origins[g].Two? && 0 <= i < origins[g].first < |attachments|
                   && origins[g].second < |attachments|
                   && Compatible(attachments[origins[g].second], attachments[i]) ==>
      TakenBefore(origins, i, origins[g].second)
  }

  ghost predicate Explains(attachments: seq<Attachment>, origins: seq<Origin>, groups: seq<AttachmentGroup>) {
    && |origins| == |groups|
    && (forall g :: 0 <= g < |groups| ==> Made(attachments, origins[g], groups[g]))
    && Partition(origins, |attachments|)
    && Maximal(attachments, origins)
    && Earliest(attachments, origins)
  }

  lemma NotBoth(a: Attachment)
    ensures !(a.IsImage() && a.IsVideo())
  {
    var mime := if a.mime.Some? then a.mime.value else "";
    assert "image/" <= mime ==> mime[0] == 'i';
    assert "video/" <= mime ==> mime[0] == 'v';
  }

  lemma NothingExplained()
    ensures Explains([], [], [])
  {
  }

  /** Every list of attachments is grouped as promised. */
  lemma {:induction false} GroupsExplained(attachments: seq<Attachment>) returns (origins: seq<Origin>)
    ensures Explains(attachments, origins, Grouped(attachments))
    decreases |attachments|
  {
    hide Compatible, Partition, Maximal, Earliest;
    origins := [];
    NothingExplained();
    if attachments != [] {
      var n := |attachments| - 1;
      var front, a := attachments[..n], attachments[n];
      var groups := Grouped(front);
      var before := GroupsExplained(front);
      var index := AddCases(groups, a);
      assert attachments == front + [a];
      if index < |groups| {
        origins := before[index := Two(before[index].first, n)];
        assert Made(front, before[index], groups[index]);
        PairExplained(front, a, before, groups, index);
      } else {
        origins := before + [One(n)];
        SingleExplained(front, a, before, groups);
      }
    }
  }

  lemma MadeStill(front: seq<Attachment>, a: Attachment, origins: seq<Origin>, groups: seq<AttachmentGroup>)
    requires Explains(front, origins, groups)
    ensures forall g :: 0 <= g < |groups| ==> Made(front + [a], origins[g], groups[g])
    ensures forall g, i :: 0 <= g < |origins| && i in Members(origins[g]) ==> i < |front|
  {
    forall g | 0 <= g < |groups|
      ensures Made(front + [a], origins[g], groups[g]) && forall i :: i in Members(origins[g]) ==> i < |front|
    {
      assert Made(front, origins[g], groups[g]);
      assert origins[g].first in Members(origins[g]);
      assert origins[g].Two? ==> origins[g].second in Members(origins[g]);
    }
  }

  lemma PartitionAfterSingle(origins: seq<Origin>, n: nat)
    requires Partition(origins, n)
    requires forall g, i :: 0 <= g < |origins| && i in Members(origins[g]) ==> i < n
    ensures Partition(origins + [One(n)], n + 1)
  {
    var origins' := origins + [One(n)];
    assert forall g :: 0 <= g < |origins| ==> origins[g].first in Members(origins[g]);
    forall i: nat | i < n + 1
      ensures Covered(origins', i)
    {
      if i == n {
        assert i in Members(origins'[|origins|]);
      } else {
        assert Covered(origins, i);
        var g :| 0 <= g < |origins| && i in Members(origins[g]);
        assert i in Members(origins'[g]);
      }
    }
  }

  lemma SingleExplained(front: seq<Attachment>, a: Attachment, origins: seq<Origin>, groups: seq<AttachmentGroup>)
    requires Explains(front, origins, groups)
    requires forall g :: 0 <= g < |groups| ==> !Takes(groups[g], a)
    ensures Explains(front + [a], origins + [One(|front|)], groups + [Single(a)])
  {
    hide PairingKey, Partition;
    var all, n := front + [a], |front|;
    var origins', groups' := origins + [One(n)], groups + [Single(a)];
    MadeStill(front, a, origins, groups);
    PartitionAfterSingle(origins, n);
    assert Maximal(all, origins') by {
      assert forall g :: 0 <= g < |origins| ==> origins[g].first in Members(origins[g]);
      forall g | 0 <= g < |origins| && origins[g].One?
        ensures !Compatible(a, all[origins[g].first])
      {
        assert Made(front, origins[g], groups[g]) && !Takes(groups[g], a);
      }
      assert forall g :: 0 <= g < |origins| ==> all[origins[g].first] == front[origins[g].first];
    }
    assert forall g :: 0 <= g < |origins| && origins[g].Two? ==> origins[g].second in Members(origins[g]);
    EarliestStill(front, a, origins, origins');
  }

  lemma EarliestStill(front: seq<Attachment>, a: Attachment, origins: seq<Origin>, origins': seq<Origin>)
    requires Earliest(front, origins) && |origins| <= |origins'|
    requires forall g :: 0 <= g < |origins| && origins[g].Two? ==>
               origins'[g] == origins[g] && origins[g].second < |front|
    requires forall g :: 0 <= g < |origins'| && origins'[g].Two? && origins'[g].second < |front| ==>
               g < |origins| && origins[g].Two?
    ensures forall g, i :: 0 <= g < |origins'| && origins'[g].Two? && 0 <= i < origins'[g].first < |front|
                           && origins'[g].second < |front|
                           && Compatible((front + [a])[origins'[g].second], (front + [a])[i]) ==>
              TakenBefore(origins', i, origins'[g].second)
  {
  }

  lemma PairExplained(front: seq<Attachment>, a: Attachment, origins: seq<Origin>, groups: seq<AttachmentGroup>,
                      index: nat)
    requires Explains(front, origins, groups) && index < |groups| && Takes(groups[index], a)
    requires forall g :: 0 <= g < index ==> !Takes(groups[g], a)
    ensures Explains(front + [a], origins[index := Two(origins[index].first, |front|)],
                     groups[index := Paired(a, groups[index].attachment)])
  {
    var all, n := front + [a], |front|;
    assert Made(front, origins[index], groups[index]);
    var first := origins[index].first;
    var origins', groups' := origins[index := Two(first, n)], groups[index := Paired(a, groups[index].attachment)];
    MadeStill(front, a, origins, groups);
    assert first in Members(origins[index]);
    NotBoth(a);
    NotBoth(front[first]);
    assert Made(all, origins'[index], groups'[index]);
    assert Partition(origins', n + 1) by {
      PartitionAfterPair(origins, index, n);
    }
    assert Maximal(all, origins') by {
      assert forall g :: 0 <= g < |origins| ==> origins[g].first in Members(origins[g]);
      assert forall g :: 0 <= g < |origins| ==> all[origins[g].first] == front[origins[g].first];
    }
    assert forall g :: 0 <= g < |origins| && origins[g].Two? ==> origins[g].second in Members(origins[g]);
    EarliestStill(front, a, origins, origins');
    forall i | 0 <= i < first && Compatible(a, all[i])
      ensures TakenBefore(origins', i, n)
    {
      FreeOrTaken(front, a, origins, groups, index, i);
    }
  }

  lemma PartitionAfterPair(origins: seq<Origin>, index: nat, n: nat)
    requires Partition(origins, n) && index < |origins| && origins[index].One?
    requires forall g, i :: 0 <= g < |origins| && i in Members(origins[g]) ==> i < n
    ensures Partition(origins[index := Two(origins[index].first, n)], n + 1)
  {
    var origins' := origins[index := Two(origins[index].first, n)];
    assert Members(origins'[index]) == Members(origins[index]) + {n};
    forall i: nat | i < n + 1
      ensures Covered(origins', i)
    {
      if i == n {
        assert i in Members(origins'[index]);
      } else {
        assert Covered(origins, i);
        var g :| 0 <= g < |origins| && i in Members(origins[g]);
        assert i in Members(origins'[g]);
      }
    }
  }

  /** An earlier attachment that would fit stands before the first free group, so it was taken. */
  lemma FreeOrTaken(front: seq<Attachment>, a: Attachment, origins: seq<Origin>, groups: seq<AttachmentGroup>,
                    index: nat, i: nat)
    requires Explains(front, origins, groups) && index < |groups| && Takes(groups[index], a)
    requires forall g :: 0 <= g < index ==> !Takes(groups[g], a)
    requires origins[index].One? && i < origins[index].first < |front| && Compatible(a, front[i])
    ensures TakenBefore(origins[index := Two(origins[index].first, |front|)], i, |front|)
  {
    var origins' := origins[index := Two(origins[index].first, |front|)];
    assert Covered(origins, i);
    var g :| 0 <= g < |origins| && i in Members(origins[g]);
    assert Made(front, origins[g], groups[g]);
    if origins[g].One? {
      assert Takes(groups[g], a);
    } else {
      assert origins[g].second in Members(origins[g]) && origins'[g] == origins[g];
    }
  }
}
