/**
 * `parse_image_file` of DockerMigrator.py: sorts the lines of the image list
 * into bare repository names (all tags wanted) and pinned `name:tag` pairs.
 * The file arrives as the lines `readlines()` returns, each with its line
 * terminator, or as `None` when opening or reading it raised.
 */
module ImageFile {
  import opened Wrappers
  import opened Text

  /** One migratable unit: an image name and one of its tags. */
  datatype ImageRef = ImageRef(name: string, tag: string)

  /** What one line of the file contributes. `Unpackable` is a line whose
      `split(':')` gives more than two pieces: the two-way unpack raises, and
      the exception discards the whole parse. */
  datatype LineKind = Blank | Bare(name: string) | Pin(ref: ImageRef) | Dropped | Unpackable

  function Classify(raw: string): LineKind {
    var line := Strip(raw);
    if ':' in line then
      var parts := Split(line, ':');
      if |parts| != 2 then Unpackable
      else if parts[0] != [] && parts[1] != [] then Pin(ImageRef(parts[0], parts[1]))
      else Dropped
    else if |line| > 0 then Bare(line)
    else Blank
  }

  /** The classification of every line, in file order. */
  function Kinds(lines: seq<string>): (ks: seq<LineKind>)
    ensures |ks| == |lines|
  {
    seq(|lines|, i requires 0 <= i < |lines| => Classify(lines[i]))
  }

  function PinOf(k: LineKind): seq<ImageRef> {
    if k.Pin? then [k.ref] else []
  }

  function BareOf(k: LineKind): seq<string> {
    if k.Bare? then [k.name] else []
  }

  /** The pinned pairs the lines of kinds `ks` give, in file order. */
  function PinnedRefs(ks: seq<LineKind>): seq<ImageRef> {
    if ks == [] then [] else PinnedRefs(ks[..|ks| - 1]) + PinOf(ks[|ks| - 1])
  }

  /** The bare names the lines of kinds `ks` give, in file order. */
  function BareNames(ks: seq<LineKind>): seq<string> {
    if ks == [] then [] else BareNames(ks[..|ks| - 1]) + BareOf(ks[|ks| - 1])
  }

  /** The result of `parse_image_file`: (bare names, pinned pairs), or two
      empty lists when reading failed or some line could not be unpacked. */
  function Parse(content: Option<seq<string>>): (seq<string>, seq<ImageRef>) {
    match content
    case None => ([], [])
    case Some(lines) =>
      var ks := Kinds(lines);
      if Unpackable in ks then ([], []) else (BareNames(ks), PinnedRefs(ks))
  }

  /** The parser as the source runs it: one pass over the lines, appending to
      two lists, abandoning both at the first line it cannot unpack. */
  method ParseImageFile(content: Option<seq<string>>) returns (imageNames: seq<string>, images: seq<ImageRef>)
    ensures (imageNames, images) == Parse(content)
  {
    imageNames, images := [], [];
    if content.None? {
      return;
    }
    var lines := content.value;
    ghost var ks := Kinds(lines);
    var i := 0;
    while i < |lines|
      invariant 0 <= i <= |lines|
      invariant Unpackable !in ks[..i]
      invariant imageNames == BareNames(ks[..i]) && images == PinnedRefs(ks[..i])
    {
      assert ks[..i + 1][..i] == ks[..i];
      assert ks[i] == Classify(lines[i]);
      var line := Strip(lines[i]);
      if ':' in line {
        var parts := Split(line, ':');
        if |parts| != 2 {
          assert ks[i] in ks;
          return [], [];
        }
        var name, tag := parts[0], parts[1];
        if name != [] && tag != [] {
          images := images + [ImageRef(name, tag)];
        }
      } else if |line| > 0 {
        imageNames := imageNames + [line];
      }
      assert ks[..i + 1] == ks[..i] + [ks[i]];
      i := i + 1;
    }
    assert ks[..i] == ks;
  }

  /** A line yields a pinned pair exactly when, stripped, it is a non-empty
      name, one `:`, and a non-empty tag, neither half holding another `:`. */
  lemma ClassifyPin(raw: string, r: ImageRef)
    ensures Classify(raw) == Pin(r) <==>
      (Strip(raw) == r.name + ":" + r.tag && r.name != [] && r.tag != []
       && ':' !in r.name && ':' !in r.tag)
  {
    var line := Strip(raw);
    SplitPiecesFree(line, ':');
    if Classify(raw) == Pin(r) {
      var parts := Split(line, ':');
      JoinSplit(line, ':');
      assert parts[0] in parts && parts[1] in parts;
      assert parts == [r.name, r.tag];
    }
    if line == r.name + ":" + r.tag && r.name != [] && r.tag != [] && ':' !in r.name && ':' !in r.tag {
      SplitJoin([r.name, r.tag], ':');
      assert line[|r.name|] == ':';
    }
  }

  /** A line yields a bare name exactly when, stripped, it is non-empty and
      holds no `:`; the name is the stripped line verbatim. */
  lemma ClassifyBare(raw: string, name: string)
    ensures Classify(raw) == Bare(name) <==> (name == Strip(raw) && name != [] && ':' !in name)
  {
  }

  /** A line contributes nothing, without spoiling the parse, exactly when it
      is blank or it has one `:` with an empty half. */
  lemma ClassifyNothing(raw: string)
    ensures (Classify(raw).Blank? || Classify(raw).Dropped?) <==>
      (AllSpace(raw) || (Count(Strip(raw), ':') == 1 && (Strip(raw)[0] == ':' || Strip(raw)[|Strip(raw)| - 1] == ':')))
  {
    var line := Strip(raw);
    StripEmpty(raw);
    CountZero(line, ':');
    SplitCount(line, ':');
    SplitPiecesFree(line, ':');
    if Count(line, ':') == 1 {
      var parts := Split(line, ':');
      JoinSplit(line, ':');
      assert parts[0] in parts && parts[1] in parts;
      assert line == parts[0] + [':'] + parts[1];
      if parts[0] != [] { assert line[0] == parts[0][0]; }
      if parts[1] != [] { assert line[|line| - 1] == parts[1][|parts[1]| - 1]; }
    }
  }

  /** A line makes the unpack raise exactly when, stripped, it holds two or
      more `:`. */
  lemma ClassifyUnpackable(raw: string)
    ensures Classify(raw).Unpackable? <==> Count(Strip(raw), ':') >= 2
  {
    CountZero(Strip(raw), ':');
    SplitCount(Strip(raw), ':');
  }

  lemma {:induction false} PinnedRefsAppend(a: seq<LineKind>, b: seq<LineKind>)
    ensures PinnedRefs(a + b) == PinnedRefs(a) + PinnedRefs(b)
    decreases |b|
  {
    if b == [] {
      assert a + b == a;
    } else {
      var b', last := b[..|b| - 1], b[|b| - 1];
      assert (a + b)[..|a + b| - 1] == a + b';
      assert (a + b)[|a + b| - 1] == last;
      PinnedRefsAppend(a, b');
    }
  }

  lemma {:induction false} BareNamesAppend(a: seq<LineKind>, b: seq<LineKind>)
    ensures BareNames(a + b) == BareNames(a) + BareNames(b)
    decreases |b|
  {
    if b == [] {
      assert a + b == a;
    } else {
      var b', last := b[..|b| - 1], b[|b| - 1];
      assert (a + b)[..|a + b| - 1] == a + b';
      assert (a + b)[|a + b| - 1] == last;
      BareNamesAppend(a, b');
    }
  }

  /** One line's place in the result: what the lines before it give, then
      its own contribution, then what the lines after it give. Nothing is
      reordered, and a line contributes to at most one of the two lists. */
  lemma LineContribution(before: seq<LineKind>, k: LineKind, after: seq<LineKind>)
    ensures PinnedRefs(before + [k] + after) == PinnedRefs(before) + PinOf(k) + PinnedRefs(after)
    ensures BareNames(before + [k] + after) == BareNames(before) + BareOf(k) + BareNames(after)
    ensures |PinOf(k)| + |BareOf(k)| <= 1
  {
    PinnedRefsAppend(before + [k], after);
    PinnedRefsAppend(before, [k]);
    BareNamesAppend(before + [k], after);
    BareNamesAppend(before, [k]);
    assert [k][..0] == [];
  }

  /** Every pinned pair comes from a `name:tag` line of the file, and every
      such line gives its pair. */
  lemma {:induction false} PinnedRefsMember(ks: seq<LineKind>, r: ImageRef)
    ensures r in PinnedRefs(ks) <==> Pin(r) in ks
    decreases |ks|
  {
    if ks != [] {
      var init := ks[..|ks| - 1];
      PinnedRefsMember(init, r);
      assert ks == init + [ks[|ks| - 1]];
    }
  }

  /** Every bare name comes from a line without `:`, and every such line
      gives its name. */
  lemma {:induction false} BareNamesMember(ks: seq<LineKind>, name: string)
    ensures name in BareNames(ks) <==> Bare(name) in ks
    decreases |ks|
  {
    if ks != [] {
      var init := ks[..|ks| - 1];
      BareNamesMember(init, name);
      assert ks == init + [ks[|ks| - 1]];
    }
  }

  /** When no line holds two or more `:`, a pair is in the pinned result
      of `parse_image_file` exactly when some line of the file gives it, and
      the pinned result is what the classified lines accumulate. */
  lemma ParsedPinMember(lines: seq<string>, r: ImageRef)
    requires forall i :: 0 <= i < |lines| ==> Count(Strip(lines[i]), ':') <= 1
    ensures Parse(Some(lines)).1 == PinnedRefs(Kinds(lines))
    ensures r in Parse(Some(lines)).1 <==> exists i :: 0 <= i < |lines| && Classify(lines[i]) == Pin(r)
  {
    NoUnpackable(lines);
    var ks := Kinds(lines);
    PinnedRefsMember(ks, r);
    if Pin(r) in ks {
      var i :| 0 <= i < |ks| && ks[i] == Pin(r);
      assert Classify(lines[i]) == Pin(r);
    }
    if exists i :: 0 <= i < |lines| && Classify(lines[i]) == Pin(r) {
      var i :| 0 <= i < |lines| && Classify(lines[i]) == Pin(r);
      assert ks[i] == Pin(r);
    }
  }

  /** When no line holds two or more `:`, a name is in the bare-name result
      of `parse_image_file` exactly when some line of the file gives it, and
      the bare-name result is what the classified lines accumulate. */
  lemma ParsedBareMember(lines: seq<string>, name: string)
    requires forall i :: 0 <= i < |lines| ==> Count(Strip(lines[i]), ':') <= 1
    ensures Parse(Some(lines)).0 == BareNames(Kinds(lines))
    ensures name in Parse(Some(lines)).0 <==> exists i :: 0 <= i < |lines| && Classify(lines[i]) == Bare(name)
  {
    NoUnpackable(lines);
    var ks := Kinds(lines);
    BareNamesMember(ks, name);
    if Bare(name) in ks {
      var i :| 0 <= i < |ks| && ks[i] == Bare(name);
      assert Classify(lines[i]) == Bare(name);
    }
    if exists i :: 0 <= i < |lines| && Classify(lines[i]) == Bare(name) {
      var i :| 0 <= i < |lines| && Classify(lines[i]) == Bare(name);
      assert ks[i] == Bare(name);
    }
  }

  /** Lines with at most one `:` each never make the unpack raise. */
  lemma NoUnpackable(lines: seq<string>)
    requires forall i :: 0 <= i < |lines| ==> Count(Strip(lines[i]), ':') <= 1
    ensures Unpackable !in Kinds(lines)
  {
    forall i | 0 <= i < |lines|
      ensures Kinds(lines)[i] != Unpackable
    {
      ClassifyUnpackable(lines[i]);
    }
  }

  /** A line with two or more `:` anywhere in the file empties both lists,
      whatever the lines before it gave. */
  lemma UnpackFailureCollapses(lines: seq<string>, i: nat)
    requires i < |lines| && Count(Strip(lines[i]), ':') >= 2
    ensures Parse(Some(lines)) == ([], [])
  {
    ClassifyUnpackable(lines[i]);
    assert Kinds(lines)[i] == Unpackable;
  }

  /** The example in the comment above `parse_image_file`: the comma after
      `image_name2` is kept as part of the name. */
  lemma DocumentedExample(l0: string, l1: string, l2: string, l3: string)
    requires l0 == "image_name1\n" && l1 == "image_name2,\n"
    requires l2 == "image_name3:tag1\n" && l3 == "image_name4:tag2\n"
    ensures Parse(Some([l0, l1, l2, l3]))
         == (["image_name1", "image_name2,"],
             [ImageRef("image_name3", "tag1"), ImageRef("image_name4", "tag2")])
  {
    ExampleKinds(l0, l1, l2, l3);
    ExampleLists(Bare("image_name1"), Bare("image_name2,"),
                 Pin(ImageRef("image_name3", "tag1")), Pin(ImageRef("image_name4", "tag2")));
  }

  /** Two bare names followed by two pairs accumulate into one list each, in
      line order. */
  lemma ExampleLists(k0: LineKind, k1: LineKind, k2: LineKind, k3: LineKind)
    requires k0.Bare? && k1.Bare? && k2.Pin? && k3.Pin?
    ensures Unpackable !in [k0, k1, k2, k3]
    ensures BareNames([k0, k1, k2, k3]) == [k0.name, k1.name]
    ensures PinnedRefs([k0, k1, k2, k3]) == [k2.ref, k3.ref]
  {
    assert [k0, k1, k2, k3][..3] == [k0, k1, k2];
    assert [k0, k1, k2][..2] == [k0, k1];
    assert [k0, k1][..1] == [k0];
    assert [k0][..0] == [];
    assert BareNames([k0]) == [k0.name] && PinnedRefs([k0]) == [];
    assert BareNames([k0, k1]) == [k0.name, k1.name] && PinnedRefs([k0, k1]) == [];
    assert BareNames([k0, k1, k2]) == [k0.name, k1.name] && PinnedRefs([k0, k1, k2]) == [k2.ref];
  }

  lemma ExampleKinds(l0: string, l1: string, l2: string, l3: string)
    requires l0 == "image_name1\n" && l1 == "image_name2,\n"
    requires l2 == "image_name3:tag1\n" && l3 == "image_name4:tag2\n"
    ensures Kinds([l0, l1, l2, l3]) == [Bare("image_name1"), Bare("image_name2,"),
      Pin(ImageRef("image_name3", "tag1")), Pin(ImageRef("image_name4", "tag2"))]
  {
    ExampleBareLines(l0, l1);
    ExamplePinLines(l2, l3);
  }

  lemma ExampleBareLines(l0: string, l1: string)
    requires l0 == "image_name1\n" && l1 == "image_name2,\n"
    ensures Classify(l0) == Bare("image_name1") && Classify(l1) == Bare("image_name2,")
  {
    ExampleBareLine(l0, "image_name1");
    ExampleBareLine(l1, "image_name2,");
  }

  lemma ExamplePinLines(l2: string, l3: string)
    requires l2 == "image_name3:tag1\n" && l3 == "image_name4:tag2\n"
    ensures Classify(l2) == Pin(ImageRef("image_name3", "tag1"))
    ensures Classify(l3) == Pin(ImageRef("image_name4", "tag2"))
  {
    ExamplePinLine(l2, "image_name3", "tag1");
    ExamplePinLine(l3, "image_name4", "tag2");
  }

  lemma ExampleBareLine(raw: string, name: string)
    requires raw == name + "\n" && name != [] && ':' !in name && !IsSpace(name[0]) && !IsSpace(name[|name| - 1])
    ensures Classify(raw) == Bare(name)
  {
    assert raw[..|raw| - 1] == name;
    assert StripLeft(raw) == raw;
    assert StripRight(name) == name;
  }

  lemma ExamplePinLine(raw: string, name: string, tag: string)
    requires raw == name + ":" + tag + "\n" && name != [] && tag != [] && ':' !in name && ':' !in tag
    requires !IsSpace(name[0]) && !IsSpace(tag[|tag| - 1])
    ensures Classify(raw) == Pin(ImageRef(name, tag))
  {
    var line := name + ":" + tag;
    assert raw[..|raw| - 1] == line;
    assert StripLeft(raw) == raw;
    assert StripRight(line) == line;
    ClassifyPin(raw, ImageRef(name, tag));
  }
}
