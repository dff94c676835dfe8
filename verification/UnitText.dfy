/**
 * Reading and rewriting the Image setting of a Quadlet unit (scripts/operatoros_deploy.py).
 * A file's contents are a sequence of characters. Text-mode reading translates newlines, so
 * both operations first see the text through `Universal`; writing does not translate back.
 */
module UnitText {
  import opened Wrappers
  import Text
  import Lists

  // ---------- newline translation and lines ----------

  /** What text-mode reading returns: CR LF and lone CR both become LF. */
  function Universal(s: string): string {
    if s == "" then ""
    else if s[0] == '\r' then
      if |s| > 1 && s[1] == '\n' then "\n" + Universal(s[2..]) else "\n" + Universal(s[1..])
    else [s[0]] + Universal(s[1..])
  }

  function Lines(s: string): (ls: seq<string>)
    ensures |ls| >= 1
  {
    if s == "" then [""]
    else
      var rest := Lines(s[1..]);
      if s[0] == '\n' then [""] + rest else [[s[0]] + rest[0]] + rest[1..]
  }

  function Join(ls: seq<string>): string
    requires |ls| >= 1
  {
    if |ls| == 1 then ls[0] else ls[0] + "\n" + Join(ls[1..])
  }

  ghost predicate OneLine(s: string) {
    '\n' !in s && '\r' !in s
  }

  lemma {:induction false} JoinOfLines(s: string)
    ensures Join(Lines(s)) == s
  {
    if s != "" {
      JoinOfLines(s[1..]);
      var rest := Lines(s[1..]);
      if s[0] == '\n' {
        assert ([""] + rest)[1..] == rest;
      } else if |rest| > 1 {
        assert ([[s[0]] + rest[0]] + rest[1..])[1..] == rest[1..];
      }
    }
  }

  lemma {:induction false} LinesOfLine(s: string, tail: string)
    requires '\n' !in s
    ensures Lines(s) == [s]
    ensures Lines(s + "\n" + tail) == [s] + Lines(tail)
  {
    if s == "" {
      assert ("\n" + tail)[1..] == tail;
      assert s + "\n" + tail == "\n" + tail;
    } else {
      LinesOfLine(s[1..], tail);
      assert (s + "\n" + tail)[1..] == s[1..] + "\n" + tail;
      assert [s[0]] + s[1..] == s;
    }
  }

  lemma {:induction false} LinesOfJoin(ls: seq<string>)
    requires |ls| >= 1
    requires forall i :: 0 <= i < |ls| ==> '\n' !in ls[i]
    ensures Lines(Join(ls)) == ls
  {
    if |ls| == 1 {
      LinesOfLine(ls[0], "");
    } else {
      LinesOfJoin(ls[1..]);
      LinesOfLine(ls[0], Join(ls[1..]));
    }
  }

  lemma {:induction false} UniversalProperties(s: string)
    ensures '\r' !in Universal(s)
    ensures Universal(s) == s <==> '\r' !in s
  {
    if s != "" {
      if s[0] == '\r' {
        if |s| > 1 && s[1] == '\n' { UniversalProperties(s[2..]); } else { UniversalProperties(s[1..]); }
        assert s[0] in s;
      } else {
        UniversalProperties(s[1..]);
        assert s == [s[0]] + s[1..];
      }
    }
  }

  lemma EndOfLine(eol: string, rest: string)
    requires eol in {"\n", "\r\n", "\r"} && (eol == "\r" && rest != "" ==> rest[0] != '\n')
    ensures Universal(eol + rest) == "\n" + Universal(rest)
  {
    var s := eol + rest;
    if eol == "\r\n" { assert s[2..] == rest; } else { assert s[1..] == rest; }
  }

  /** Each of the three line ends is read as LF, and nothing else changes. */
  lemma {:induction false} UniversalLine(line: string, eol: string, rest: string)
    requires OneLine(line) && eol in {"\n", "\r\n", "\r"} && (eol == "\r" && rest != "" ==> rest[0] != '\n')
    ensures Universal(line + (eol + rest)) == line + "\n" + Universal(rest)
  {
    if line == "" {
      EndOfLine(eol, rest);
      assert line + (eol + rest) == eol + rest;
    } else {
      UniversalLine(line[1..], eol, rest);
      assert (line + (eol + rest))[1..] == line[1..] + (eol + rest) && line == [line[0]] + line[1..];
    }
  }

  lemma {:induction false} LinesAreLines(s: string)
    ensures forall i :: 0 <= i < |Lines(s)| ==> '\n' !in Lines(s)[i]
    ensures '\r' !in s ==> forall i :: 0 <= i < |Lines(s)| ==> '\r' !in Lines(s)[i]
  {
    if s != "" {
      LinesAreLines(s[1..]);
    }
  }

  lemma {:induction false} JoinHasNoReturn(ls: seq<string>)
    requires |ls| >= 1
    requires forall i :: 0 <= i < |ls| ==> '\r' !in ls[i]
    ensures '\r' !in Join(ls)
  {
    if |ls| > 1 { JoinHasNoReturn(ls[1..]); }
  }

  // ---------- the settings of a unit ----------

  const IMAGE := "Image="

  predicate IsImageLine(line: string) {
    IMAGE <= line
  }

  function ImageCount(ls: seq<string>): nat {
    if ls == [] then 0 else (if IsImageLine(ls[0]) then 1 else 0) + ImageCount(ls[1..])
  }

  /** The matches of the reading pattern, which unlike the rewriting one wants a non-empty value. */
  function ImageValues(ls: seq<string>): seq<string> {
    if ls == [] then []
    else (if IsImageLine(ls[0]) && |ls[0]| > |IMAGE| then [ls[0][|IMAGE|..]] else []) + ImageValues(ls[1..])
  }

  function Occurrences(ls: seq<string>, line: string): nat {
    if ls == [] then 0 else (if ls[0] == line then 1 else 0) + Occurrences(ls[1..], line)
  }

  function Rewrite(ls: seq<string>, ref: string): (r: seq<string>)
    ensures |r| == |ls|
  {
    if ls == [] then []
    else [if IsImageLine(ls[0]) then IMAGE + ref else ls[0]] + Rewrite(ls[1..], ref)
  }

  /** The blanks that Python's str.strip removes. */
  predicate IsBlank(c: char) {
    c in " \t\n\r" || '\U{0B}' <= c <= '\U{0C}' || '\U{1C}' <= c <= '\U{1F}' || c == '\U{85}' || c == '\U{A0}' ||
    c == '\U{1680}' || '\U{2000}' <= c <= '\U{200A}' || c in "\U{2028}\U{2029}\U{202F}\U{205F}\U{3000}"
  }

  /** The characters by code point. */
  lemma BlankIff(c: char)
    ensures IsBlank(c) <==>
      || 9 <= c as int <= 13 || 28 <= c as int <= 32 || 8192 <= c as int <= 8202
      || c as int in {133, 160, 5760, 8232, 8233, 8239, 8287, 12288}
  {
    assert c in " \t\n\r" <==> c in {' ', '\t', '\n', '\r'};
    assert c in "\U{2028}\U{2029}\U{202F}\U{205F}\U{3000}" <==> c in {'\U{2028}', '\U{2029}', '\U{202F}', '\U{205F}', '\U{3000}'};
  }

  function Strip(s: string): string {
    Text.TrimBoth(s, IsBlank)
  }

  /** load_unit_image: None stands for the raised error. */
  function LoadImage(text: string, container: string): Option<string> {
    var ls := Lines(Universal(text));
    var values := ImageValues(ls);
    if Occurrences(ls, "ContainerName=" + container) != 1 then None
    else if |values| != 1 || Strip(values[0]) == "" then None
    else Some(Strip(values[0]))
  }

  /** update_unit_image. The reference is a replacement template, so it must hold no backslash. */
  function UpdateImage(text: string, ref: string): Option<string>
    requires '\\' !in ref
  {
    var ls := Lines(Universal(text));
    if ImageCount(ls) == 1 then Some(Join(Rewrite(ls, ref))) else None
  }

  // ---------- references ----------

  predicate AllHex(s: string) {
    forall i :: 0 <= i < |s| ==> '0' <= s[i] <= '9' || 'a' <= s[i] <= 'f'
  }

  predicate Digest(prefix: string, length: nat, s: string) {
    prefix <= s && |s| == |prefix| + length && AllHex(s[|prefix|..])
  }

  predicate IsImageId(s: string) {
    Digest("sha256:", 64, s)
  }

  /** The three forms of image reference that a rollback accepts. */
  predicate ImmutableRef(s: string) {
    Digest("localhost/operatoros-api:", 40, s) || Digest("localhost/operatoros-api@sha256:", 64, s) || IsImageId(s)
  }

  /** A reference that survives a write and a read unchanged. */
  ghost predicate PlainRef(s: string) {
    s != "" && OneLine(s) && '\\' !in s && Strip(s) == s
  }

  ghost predicate IsHex(s: string, length: nat) {
    |s| == length && forall i :: 0 <= i < |s| ==> s[i] in "0123456789abcdef"
  }

  lemma DigestIff(prefix: string, length: nat, s: string)
    ensures Digest(prefix, length, s) <==> exists hex :: IsHex(hex, length) && s == prefix + hex
  {
    if Digest(prefix, length, s) {
      var hex := s[|prefix|..];
      assert s == prefix + hex;
      forall i | 0 <= i < |hex| ensures hex[i] in "0123456789abcdef" { HexIff(hex[i]); }
      assert IsHex(hex, length);
    }
    if hex :| IsHex(hex, length) && s == prefix + hex {
      assert s[|prefix|..] == hex;
      forall i | 0 <= i < |hex| ensures '0' <= hex[i] <= '9' || 'a' <= hex[i] <= 'f' { HexIff(hex[i]); }
    }
  }

  lemma HexIff(c: char)
    ensures '0' <= c <= '9' || 'a' <= c <= 'f' <==> c in "0123456789abcdef"
  {
    assert c in "0123456789abcdef" <==> c in {'0', '1', '2', '3', '4', '5', '6', '7', '8', '9', 'a', 'b', 'c', 'd', 'e', 'f'};
  }

  /** The three forms of immutable reference, and the one that is an image ID. */
  lemma ImmutableRefIff(s: string)
    ensures ImmutableRef(s) <==>
      || (exists hex :: IsHex(hex, 40) && s == "localhost/operatoros-api:" + hex)
      || (exists hex :: IsHex(hex, 64) && s == "localhost/operatoros-api@sha256:" + hex)
      || (exists hex :: IsHex(hex, 64) && s == "sha256:" + hex)
    ensures IsImageId(s) <==> exists hex :: IsHex(hex, 64) && s == "sha256:" + hex
  {
    DigestIff("localhost/operatoros-api:", 40, s);
    DigestIff("localhost/operatoros-api@sha256:", 64, s);
    DigestIff("sha256:", 64, s);
  }

  lemma DigestCharacters(prefix: string, length: nat, s: string, bad: char)
    requires Digest(prefix, length, s) && bad !in prefix && !('0' <= bad <= '9' || 'a' <= bad <= 'f')
    ensures bad !in s
  {
    assert s == prefix + s[|prefix|..];
  }

  lemma ImmutableRefHasOnly(s: string, bad: char)
    requires ImmutableRef(s) && !('0' <= bad <= '9' || 'a' <= bad <= 'z' || bad in ":/@-")
    ensures bad !in s
  {
    var p := if Digest("localhost/operatoros-api:", 40, s) then "localhost/operatoros-api:"
             else if Digest("localhost/operatoros-api@sha256:", 64, s) then "localhost/operatoros-api@sha256:" else "sha256:";
    DigestCharacters(p, |s| - |p|, s, bad);
  }

  lemma ImmutableRefIsPlain(s: string)
    requires ImmutableRef(s)
    ensures PlainRef(s)
  {
    ImmutableRefHasOnly(s, '\n');
    ImmutableRefHasOnly(s, '\r');
    ImmutableRefHasOnly(s, '\\');
    assert !IsBlank(s[0]);
    assert s[|s| - 1] in s;
    if IsBlank(s[|s| - 1]) { ImmutableRefHasOnly(s, s[|s| - 1]); }
  }

  // ---------- the laws on lists of lines ----------

  lemma {:induction false} RewriteLaws(ls: seq<string>, ref: string, other: string, container: string)
    ensures ImageCount(Rewrite(ls, ref)) == ImageCount(ls)
    ensures Rewrite(Rewrite(ls, ref), other) == Rewrite(ls, other)
    ensures Occurrences(Rewrite(ls, ref), "ContainerName=" + container) == Occurrences(ls, "ContainerName=" + container)
  {
    if ls != [] {
      RewriteLaws(ls[1..], ref, other, container);
      var r := Rewrite(ls, ref);
      assert r[1..] == Rewrite(ls[1..], ref);
      assert IsImageLine(IMAGE + ref);
      assert ("ContainerName=" + container)[0] == 'C';
      assert IsImageLine(ls[0]) ==> ls[0][0] == IMAGE[0];
    }
  }

  lemma {:induction false} RewriteValues(ls: seq<string>, ref: string)
    requires ref != ""
    ensures |ImageValues(Rewrite(ls, ref))| == ImageCount(ls)
    ensures forall i :: 0 <= i < |ImageValues(Rewrite(ls, ref))| ==> ImageValues(Rewrite(ls, ref))[i] == ref
  {
    if ls != [] {
      RewriteValues(ls[1..], ref);
      assert Rewrite(ls, ref)[1..] == Rewrite(ls[1..], ref);
      assert IsImageLine(IMAGE + ref) && (IMAGE + ref)[|IMAGE|..] == ref;
    }
  }

  lemma {:induction false} ValuesAtMostCount(ls: seq<string>)
    ensures |ImageValues(ls)| <= ImageCount(ls)
  {
    if ls != [] { ValuesAtMostCount(ls[1..]); }
  }

  lemma {:induction false} NothingToRewrite(ls: seq<string>, ref: string)
    requires ImageCount(ls) == 0
    ensures Rewrite(ls, ref) == ls && ImageValues(ls) == []
  {
    if ls != [] { NothingToRewrite(ls[1..], ref); }
  }

  /** With a single Image line, rewriting changes nothing exactly when it writes the value already there. */
  lemma {:induction false} RewriteIsIdentity(ls: seq<string>, ref: string)
    requires ImageCount(ls) == 1 && ref != ""
    ensures Rewrite(ls, ref) == ls <==> ImageValues(ls) == [ref]
  {
    if IsImageLine(ls[0]) {
      NothingToRewrite(ls[1..], ref);
      var l := ls[0];
      assert l == IMAGE + l[|IMAGE|..];
      assert IMAGE + ref == l <==> ref == l[|IMAGE|..] by {
        assert (IMAGE + ref)[|IMAGE|..] == ref;
      }
      assert Rewrite(ls, ref) == [IMAGE + ref] + ls[1..];
      assert ls == [l] + ls[1..];
      if Rewrite(ls, ref) == ls { assert Rewrite(ls, ref)[0] == ls[0]; }
      if ImageValues(ls) == [ref] { assert ImageValues(ls)[0] == ref; }
    } else {
      RewriteIsIdentity(ls[1..], ref);
      assert ls == [ls[0]] + ls[1..];
      if Rewrite(ls, ref) == ls { assert Rewrite(ls[1..], ref) == Rewrite(ls, ref)[1..] == ls[1..]; }
    }
  }

  lemma {:induction false} RewriteKeepsLines(ls: seq<string>, ref: string)
    requires OneLine(ref) && forall i :: 0 <= i < |ls| ==> OneLine(ls[i])
    ensures forall i :: 0 <= i < |ls| ==> OneLine(Rewrite(ls, ref)[i])
  {
    if ls != [] { RewriteKeepsLines(ls[1..], ref); }
  }

  lemma {:induction false} ValuesAreLines(ls: seq<string>)
    requires forall i :: 0 <= i < |ls| ==> OneLine(ls[i])
    ensures forall i :: 0 <= i < |ImageValues(ls)| ==> OneLine(ImageValues(ls)[i])
  {
    if ls != [] { ValuesAreLines(ls[1..]); }
  }

  // ---------- the laws on text ----------

  /** The lines of an updated unit are the rewritten lines of the original. */
  lemma UpdatedLines(text: string, ref: string)
    requires OneLine(ref) && '\\' !in ref && UpdateImage(text, ref).Some?
    ensures '\r' !in UpdateImage(text, ref).value
    ensures Lines(Universal(UpdateImage(text, ref).value)) == Rewrite(Lines(Universal(text)), ref)
  {
    UniversalProperties(text);
    var ls := Lines(Universal(text));
    LinesAreLines(Universal(text));
    RewriteKeepsLines(ls, ref);
    JoinHasNoReturn(Rewrite(ls, ref));
    LinesOfJoin(Rewrite(ls, ref));
    UniversalProperties(Join(Rewrite(ls, ref)));
  }

  lemma PutGet(text: string, ref: string, container: string)
    requires PlainRef(ref) && UpdateImage(text, ref).Some?
    ensures LoadImage(UpdateImage(text, ref).value, container) ==
      if Occurrences(Lines(Universal(text)), "ContainerName=" + container) == 1 then Some(ref) else None
  {
    UpdatedLines(text, ref);
    var ls := Lines(Universal(text));
    RewriteLaws(ls, ref, ref, container);
    RewriteValues(ls, ref);
  }

  lemma PutPut(text: string, first: string, second: string)
    requires OneLine(first) && '\\' !in first && '\\' !in second && UpdateImage(text, first).Some?
    ensures UpdateImage(UpdateImage(text, first).value, second) == UpdateImage(text, second)
  {
    UpdatedLines(text, first);
    RewriteLaws(Lines(Universal(text)), first, second, "");
  }

  /** An update leaves the file's bytes alone exactly when it holds no CR and already names the reference. */
  lemma UpdateIsIdentityIff(text: string, ref: string)
    requires PlainRef(ref) && UpdateImage(text, ref).Some?
    ensures UpdateImage(text, ref).value == text <==>
      '\r' !in text && ImageValues(Lines(text)) == [ref]
  {
    UniversalProperties(text);
    UpdatedLines(text, ref);
    if '\r' !in text {
      var ls := Lines(text);
      RewriteIsIdentity(ls, ref);
      JoinOfLines(text);
      if UpdateImage(text, ref).value == text {
        assert Rewrite(ls, ref) == ls;
      }
    }
  }

  ghost predicate AllBlank(s: string) {
    Text.All(s, IsBlank)
  }

  lemma StripSplits(s: string) returns (a: string, b: string)
    ensures AllBlank(a) && AllBlank(b) && s == a + Strip(s) + b && Text.Bare(Strip(s), IsBlank)
  {
    a := Text.TrimStartSplits(s, IsBlank);
    b := Text.TrimEndSplits(Text.TrimStart(s, IsBlank), IsBlank);
    if Strip(s) != "" { assert Text.TrimStart(s, IsBlank)[0] == Strip(s)[0]; }
  }

  lemma StripIsStable(s: string)
    ensures Strip(Strip(s)) == Strip(s)
    ensures forall c :: c in Strip(s) ==> c in s
  {
    var a, b := StripSplits(s);
    Text.TrimBothIff(Strip(s), Strip(s), IsBlank);
    assert AllBlank("") && Strip(s) == "" + Strip(s) + "";
  }

  /** What a unit names can be written back: a read value has no newline, and no blank at either end. */
  lemma LoadedRef(text: string, container: string)
    requires LoadImage(text, container).Some?
    ensures var ref := LoadImage(text, container).value;
            ref != "" && OneLine(ref) && Strip(ref) == ref && ImageValues(Lines(Universal(text))) != [] &&
            ref == Strip(ImageValues(Lines(Universal(text)))[0])
  {
    UniversalProperties(text);
    LinesAreLines(Universal(text));
    var ls := Lines(Universal(text));
    ValuesAreLines(ls);
    StripIsStable(ImageValues(ls)[0]);
  }

  /** The Image value as it stands in the file carries no blank at either end. */
  ghost predicate UnpaddedImage(text: string) {
    var values := ImageValues(Lines(text));
    |values| == 1 && Strip(values[0]) == values[0]
  }

  /**
   * Writing back the image a unit names restores its bytes exactly when the unit holds no
   * CR and its Image value carries no surrounding blanks.
   */
  lemma GetPut(text: string, container: string)
    requires LoadImage(text, container).Some? && PlainRef(LoadImage(text, container).value)
    requires UpdateImage(text, LoadImage(text, container).value).Some?
    ensures UpdateImage(text, LoadImage(text, container).value).value == text <==>
      '\r' !in text && UnpaddedImage(text)
  {
    var ref := LoadImage(text, container).value;
    UpdateIsIdentityIff(text, ref);
    LoadedRef(text, container);
    UniversalProperties(text);
  }

  // ---------- what is read and what is written ----------

  /** The one line that gives the container's name. */
  ghost predicate NamesContainer(ls: seq<string>, container: string, i: int) {
    0 <= i < |ls| && ls[i] == "ContainerName=" + container &&
    forall j :: 0 <= j < |ls| && j != i ==> ls[j] != "ContainerName=" + container
  }

  /** The one Image setting that is not empty. */
  ghost predicate OnlyValue(ls: seq<string>, i: int) {
    0 <= i < |ls| && HasValue(ls[i]) && forall j :: 0 <= j < |ls| && j != i ==> !HasValue(ls[j])
  }

  /** The one Image setting. */
  ghost predicate OnlyImage(ls: seq<string>, i: int) {
    0 <= i < |ls| && "Image=" <= ls[i] && forall j :: 0 <= j < |ls| && j != i ==> !("Image=" <= ls[j])
  }

  lemma {:induction false} OccurrencesAreLines(ls: seq<string>, line: string)
    ensures Occurrences(ls, line) == |Lists.Filter(ls, l => l == line)|
  {
    if ls != [] { OccurrencesAreLines(ls[1..], line); }
  }

  lemma {:induction false} ImagesAreLines(ls: seq<string>)
    ensures ImageCount(ls) == |Lists.Filter(ls, l => IsImageLine(l))|
  {
    if ls != [] { ImagesAreLines(ls[1..]); }
  }

  /** An Image setting that is not empty. */
  predicate HasValue(line: string) {
    "Image=" <= line && line != "Image="
  }

  lemma {:induction false} ValuesAreOfLines(ls: seq<string>)
    ensures var kept := Lists.Filter(ls, l => HasValue(l));
      |ImageValues(ls)| == |kept| && forall i :: 0 <= i < |kept| ==> kept[i] == "Image=" + ImageValues(ls)[i]
  {
    if ls != [] {
      ValuesAreOfLines(ls[1..]);
      if IsImageLine(ls[0]) { assert ls[0] == IMAGE + ls[0][|IMAGE|..]; }
    }
  }

  /** The setting names the reference, with blanks around it. */
  ghost predicate Names(line: string, ref: string) {
    ref != "" && Text.Bare(ref, IsBlank) && exists a, b :: AllBlank(a) && AllBlank(b) && line == "Image=" + (a + ref + b)
  }

  /**
   * A unit names an image exactly when it has one line that gives it the container's name, one
   * Image setting that is not empty, and that is the image with blanks around it.
   */
  lemma LoadIff(text: string, container: string, ref: string)
    ensures var ls := Lines(Universal(text));
      LoadImage(text, container) == Some(ref) <==>
        && (exists i :: NamesContainer(ls, container, i))
        && exists i :: OnlyValue(ls, i) && Names(ls[i], ref)
  {
    var ls := Lines(Universal(text));
    ContainerIff(ls, container);
    ReferenceIff(ls, ref);
    LoadRule(text, container, ref);
  }

  lemma LoadRule(text: string, container: string, ref: string)
    ensures var ls := Lines(Universal(text));
      LoadImage(text, container) == Some(ref) <==>
        Occurrences(ls, "ContainerName=" + container) == 1 && |ImageValues(ls)| == 1 && Strip(ImageValues(ls)[0]) == ref != ""
  {
  }

  lemma ReferenceIff(ls: seq<string>, ref: string)
    ensures |ImageValues(ls)| == 1 && Strip(ImageValues(ls)[0]) == ref != "" <==>
      exists i :: OnlyValue(ls, i) && Names(ls[i], ref)
  {
    ValueIff(ls);
    forall i | OnlyValue(ls, i) ensures |ImageValues(ls)| == 1 && (Strip(ImageValues(ls)[0]) == ref != "" <==> Names(ls[i], ref)) {
      ValueNames(ls[i], ImageValues(ls)[0], ref);
    }
  }

  lemma ContainerIff(ls: seq<string>, container: string)
    ensures Occurrences(ls, "ContainerName=" + container) == 1 <==> exists i :: NamesContainer(ls, container, i)
  {
    var f := l => l == "ContainerName=" + container;
    OccurrencesAreLines(ls, "ContainerName=" + container);
    if |Lists.Filter(ls, f)| == 1 {
      var i := Lists.OneInFilter(ls, f);
      assert NamesContainer(ls, container, i);
    }
    if i :| NamesContainer(ls, container, i) {
      assert Lists.OnlyAt(ls, f, i);
      Lists.FilterOfOne(ls, f, i);
    }
  }

  lemma ValueIff(ls: seq<string>)
    ensures |ImageValues(ls)| == 1 <==> exists i :: OnlyValue(ls, i)
    ensures forall i :: OnlyValue(ls, i) ==> |ImageValues(ls)| == 1 && ls[i] == "Image=" + ImageValues(ls)[0]
  {
    var f := l => HasValue(l);
    ValuesAreOfLines(ls);
    if |ImageValues(ls)| == 1 {
      var i := Lists.OneInFilter(ls, f);
      assert OnlyValue(ls, i);
    }
    forall i | OnlyValue(ls, i) ensures Lists.Filter(ls, f) == [ls[i]] {
      assert Lists.OnlyAt(ls, f, i);
      Lists.FilterOfOne(ls, f, i);
    }
  }

  lemma ValueNames(line: string, value: string, ref: string)
    requires line == "Image=" + value
    ensures Strip(value) == ref != "" <==> Names(line, ref)
  {
    var a, b := StripSplits(value);
    if Strip(value) == ref != "" { assert AllBlank(a) && AllBlank(b) && line == "Image=" + (a + ref + b); }
    forall x, y | AllBlank(x) && AllBlank(y) && line == "Image=" + (x + ref + y) && ref != "" && Text.Bare(ref, IsBlank)
      ensures Strip(value) == ref
    {
      assert line[|"Image="|..] == value && line[|"Image="|..] == x + ref + y;
      Text.TrimBothIff(value, ref, IsBlank);
    }
  }

  lemma {:induction false} RewrittenLine(ls: seq<string>, ref: string, i: int)
    requires Lists.OnlyAt(ls, l => IsImageLine(l), i)
    ensures Rewrite(ls, ref) == ls[i := "Image=" + ref]
  {
    var f := l => IsImageLine(l);
    assert forall j :: 0 <= j < |ls[1..]| ==> ls[1..][j] == ls[j + 1];
    if i == 0 {
      Lists.FilterOfNone(ls[1..], f);
      ImagesAreLines(ls[1..]);
      NothingToRewrite(ls[1..], ref);
    } else {
      assert Lists.OnlyAt(ls[1..], f, i - 1);
      RewrittenLine(ls[1..], ref, i - 1);
      assert f(ls[0]) <==> IsImageLine(ls[0]);
    }
  }

  /** A unit is updated exactly when one of its lines is an Image setting, and only that line changes. */
  lemma UpdateIff(text: string, ref: string)
    requires OneLine(ref) && '\\' !in ref
    ensures var ls := Lines(Universal(text));
      UpdateImage(text, ref).Some? <==> exists i :: OnlyImage(ls, i)
    ensures var ls := Lines(Universal(text));
      forall i :: OnlyImage(ls, i) && UpdateImage(text, ref).Some? ==>
        Lines(UpdateImage(text, ref).value) == ls[i := "Image=" + ref]
  {
    var ls := Lines(Universal(text));
    var f := l => IsImageLine(l);
    ImagesAreLines(ls);
    if ImageCount(ls) == 1 {
      var i := Lists.OneInFilter(ls, f);
      assert OnlyImage(ls, i);
      UpdatedLines(text, ref);
      UniversalProperties(UpdateImage(text, ref).value);
    }
    forall i | OnlyImage(ls, i) ensures ImageCount(ls) == 1 && Rewrite(ls, ref) == ls[i := "Image=" + ref] {
      assert Lists.OnlyAt(ls, f, i);
      Lists.FilterOfOne(ls, f, i);
      RewrittenLine(ls, ref, i);
    }
  }
}
