/**
 * The FIFO work queue of DockerMigrator.py and `populate_tags`, which
 * expands each repository name into one `(name, tag)` work item per tag.
 * The source's `get_tags` answer is a map from repository name to its tag
 * list; a name missing from the map stands for a `None` answer.
 */
module TagQueue {
  import opened Wrappers
  import opened ImageFile

  /** Python's `Queue.Queue` as the migration uses it: items are put at the
      back and taken, by the workers, from the front. */
  class WorkQueue {
    var items: seq<ImageRef>

    constructor ()
      ensures items == []
    {
      items := [];
    }

    /** `q.put_nowait(item)`: the queue is unbounded, so this never fails. */
    method PutNowait(item: ImageRef)
      modifies this
      ensures items == old(items) + [item]
    {
      items := items + [item];
    }

    /** `q.empty()`. */
    function Empty(): bool
      reads this
    {
      items == []
    }
  }

  /** `source.get_tags(name)`: the tag list, or `None`. */
  function GetTags(tags: map<string, seq<string>>, name: string): Option<seq<string>> {
    if name in tags then Some(tags[name]) else None
  }

  /** The tags a name expands into: none when `get_tags` answers `None`. */
  function TagsOf(tags: map<string, seq<string>>, name: string): seq<string> {
    GetTags(tags, name).GetOr([])
  }

  /** One work item per tag of `name`, in tag order. */
  function ItemsFor(name: string, tagList: seq<string>): (r: seq<ImageRef>)
    ensures |r| == |tagList|
  {
    seq(|tagList|, i requires 0 <= i < |tagList| => ImageRef(name, tagList[i]))
  }

  /** The work items `populate_tags` enqueues for `names`: name by name, and
      tag by tag within each name. */
  function Expand(names: seq<string>, tags: map<string, seq<string>>): seq<ImageRef> {
    if names == [] then []
    else
      var last := names[|names| - 1];
      Expand(names[..|names| - 1], tags) + ItemsFor(last, TagsOf(tags, last))
  }

  /** The number of tags over all of `names`. */
  function TagTotal(names: seq<string>, tags: map<string, seq<string>>): nat {
    if names == [] then 0 else |TagsOf(tags, names[0])| + TagTotal(names[1..], tags)
  }

  /** `populate_tags(image_names, source, q)`: for each name, in order, put
      one item per tag at the back of `q`. */
  method PopulateTags(imageNames: seq<string>, tags: map<string, seq<string>>, q: WorkQueue)
    modifies q
    ensures q.items == old(q.items) + Expand(imageNames, tags)
  {
    var i := 0;
    while i < |imageNames|
      invariant 0 <= i <= |imageNames|
      invariant q.items == old(q.items) + Expand(imageNames[..i], tags)
    {
      var imageName := imageNames[i];
      var found := GetTags(tags, imageName);
      ghost var before := q.items;
      if found.Some? && |found.value| > 0 {
        var tagList := found.value;
        var j := 0;
        while j < |tagList|
          invariant 0 <= j <= |tagList|
          invariant q.items == before + ItemsFor(imageName, tagList[..j])
        {
          assert ItemsFor(imageName, tagList[..j + 1]) == ItemsFor(imageName, tagList[..j]) + [ImageRef(imageName, tagList[j])];
          q.PutNowait(ImageRef(imageName, tagList[j]));
          j := j + 1;
        }
        assert tagList[..j] == tagList;
      }
      assert imageNames[..i + 1][..i] == imageNames[..i];
      i := i + 1;
    }
    assert imageNames[..i] == imageNames;
  }

  /** Expanding two runs of names one after the other gives the two
      expansions one after the other. */
  lemma {:induction false} ExpandAppend(a: seq<string>, b: seq<string>, tags: map<string, seq<string>>)
    ensures Expand(a + b, tags) == Expand(a, tags) + Expand(b, tags)
    decreases |b|
  {
    if b == [] {
      assert a + b == a;
    } else {
      var b', last := b[..|b| - 1], b[|b| - 1];
      assert (a + b)[..|a + b| - 1] == a + b';
      assert (a + b)[|a + b| - 1] == last;
      ExpandAppend(a, b', tags);
    }
  }

  /** The queue grows by exactly the sum of the tag-list lengths. */
  lemma {:induction false} ExpandLength(names: seq<string>, tags: map<string, seq<string>>)
    ensures |Expand(names, tags)| == TagTotal(names, tags)
    decreases |names|
  {
    if names != [] {
      ExpandLength(names[1..], tags);
      ExpandAppend([names[0]], names[1..], tags);
      assert [names[0]] + names[1..] == names;
      assert [names[0]][..0] == [];
    }
  }

  /** An item is enqueued exactly when its name is among `names` and its tag
      is among that name's tags. */
  lemma {:induction false} ExpandMember(names: seq<string>, tags: map<string, seq<string>>, r: ImageRef)
    ensures r in Expand(names, tags) <==> r.name in names && r.tag in TagsOf(tags, r.name)
    decreases |names|
  {
    if names != [] {
      var init, last := names[..|names| - 1], names[|names| - 1];
      ExpandMember(init, tags, r);
      assert names == init + [last];
      var items := ItemsFor(last, TagsOf(tags, last));
      if r in items {
        var k :| 0 <= k < |items| && items[k] == r;
        assert r.tag == TagsOf(tags, last)[k];
      }
      if r.name == last && r.tag in TagsOf(tags, last) {
        var k :| 0 <= k < |TagsOf(tags, last)| && TagsOf(tags, last)[k] == r.tag;
        assert items[k] == r;
      }
    }
  }

  /** A name without tags, or for which `get_tags` answers `None`, adds
      nothing and leaves the order of everything else alone. */
  lemma ExpandSkipsUntagged(before: seq<string>, name: string, after: seq<string>, tags: map<string, seq<string>>)
    requires GetTags(tags, name).None? || GetTags(tags, name) == Some([])
    ensures Expand(before + [name] + after, tags) == Expand(before, tags) + Expand(after, tags)
  {
    assert TagsOf(tags, name) == [];
    assert [name][..0] == [];
    assert Expand([name], tags) == Expand([], tags) + ItemsFor(name, []);
    ExpandAppend(before + [name], after, tags);
    ExpandAppend(before, [name], tags);
  }
}
