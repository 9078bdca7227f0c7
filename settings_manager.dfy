/** The recent-projects list of the user settings (src/core/settings_manager.py).
    Reading and writing `user_settings.json` is I/O and is not part of this model. */
module Settings {

  /** One entry of `recent_projects`. */
  datatype RecentEntry = RecentEntry(name: string, path: string)

  const MaxRecents: nat := 10

  /** `[r for r in recents if r['path'] != path]`. */
  function WithoutPath(rs: seq<RecentEntry>, path: string): (r: seq<RecentEntry>)
    ensures |r| <= |rs|
    ensures forall i :: 0 <= i < |r| ==> r[i].path != path
  {
    if rs == [] then []
    else if rs[|rs| - 1].path == path then WithoutPath(rs[..|rs| - 1], path)
    else WithoutPath(rs[..|rs| - 1], path) + [rs[|rs| - 1]]
  }

  /** The filter keeps every entry with another path and adds none. */
  lemma {:induction false} WithoutPathMembers(rs: seq<RecentEntry>, path: string)
    ensures forall e :: e in rs && e.path != path ==> e in WithoutPath(rs, path)
    ensures forall e :: e in WithoutPath(rs, path) ==> e in rs
  {
    if rs != [] {
      WithoutPathMembers(rs[..|rs| - 1], path);
      assert rs == rs[..|rs| - 1] + [rs[|rs| - 1]];
    }
  }

  /** The filter keeps the order of the entries it keeps: filtering a
      concatenation filters each part. */
  lemma {:induction false} WithoutPathAppend(a: seq<RecentEntry>, b: seq<RecentEntry>, path: string)
    ensures WithoutPath(a + b, path) == WithoutPath(a, path) + WithoutPath(b, path)
  {
    if b == [] {
      assert a + b == a;
    } else {
      var c, init, last := a + b, b[..|b| - 1], b[|b| - 1];
      assert c[..|c| - 1] == a + init && c[|c| - 1] == last;
      WithoutPathAppend(a, init, path);
      if last.path == path {
        assert WithoutPath(c, path) == WithoutPath(a + init, path);
        assert WithoutPath(b, path) == WithoutPath(init, path);
      } else {
        assert WithoutPath(c, path) == WithoutPath(a + init, path) + [last];
        assert WithoutPath(b, path) == WithoutPath(init, path) + [last];
      }
    }
  }

  /** The list after `add_recent(name, path)`: filter out the path, insert the new
      entry at the front, keep the first ten. */
  function AddedRecent(rs: seq<RecentEntry>, name: string, path: string): seq<RecentEntry> {
    var front := [RecentEntry(name, path)] + WithoutPath(rs, path);
    front[..if |front| < MaxRecents then |front| else MaxRecents]
  }

  /** Number of entries of `rs` with the given path. */
  function CountPath(rs: seq<RecentEntry>, path: string): nat {
    if rs == [] then 0
    else CountPath(rs[..|rs| - 1], path) + (if rs[|rs| - 1].path == path then 1 else 0)
  }

  lemma {:induction false} CountPathZero(rs: seq<RecentEntry>, path: string)
    requires forall i :: 0 <= i < |rs| ==> rs[i].path != path
    ensures CountPath(rs, path) == 0
  {
    if rs != [] {
      CountPathZero(rs[..|rs| - 1], path);
    }
  }

  lemma {:induction false} CountPathCons(e: RecentEntry, rs: seq<RecentEntry>, path: string)
    ensures CountPath([e] + rs, path) == (if e.path == path then 1 else 0) + CountPath(rs, path)
  {
    if rs != [] {
      CountPathCons(e, rs[..|rs| - 1], path);
      assert ([e] + rs)[..|[e] + rs| - 1] == [e] + rs[..|rs| - 1];
    } else {
      assert ([e] + rs)[..0] == [];
    }
  }

  lemma {:induction false} WithoutPathNoop(rs: seq<RecentEntry>, path: string)
    requires forall i :: 0 <= i < |rs| ==> rs[i].path != path
    ensures WithoutPath(rs, path) == rs
  {
    if rs != [] {
      WithoutPathNoop(rs[..|rs| - 1], path);
    }
  }

  /** The new entry is first, it is the only entry with its path, and there are at
      most ten entries. */
  lemma AddedRecentShape(rs: seq<RecentEntry>, name: string, path: string)
    ensures var r := AddedRecent(rs, name, path);
      && 0 < |r| <= MaxRecents
      && r[0] == RecentEntry(name, path)
      && CountPath(r, path) == 1
  {
    var w := WithoutPath(rs, path);
    var r := AddedRecent(rs, name, path);
    assert r == [RecentEntry(name, path)] + r[1..];
    CountPathCons(RecentEntry(name, path), r[1..], path);
    CountPathZero(r[1..], path);
  }

  /** Entries with other paths keep their relative order; only the oldest of them
      beyond the tenth place are dropped. */
  lemma AddedRecentKeepsOthers(rs: seq<RecentEntry>, name: string, path: string)
    ensures var w := WithoutPath(rs, path);
      WithoutPath(AddedRecent(rs, name, path), path) == w[..if |w| < MaxRecents - 1 then |w| else MaxRecents - 1]
  {
    var w := WithoutPath(rs, path);
    var r := AddedRecent(rs, name, path);
    var k := if |w| < MaxRecents - 1 then |w| else MaxRecents - 1;
    assert r == [RecentEntry(name, path)] + w[..k];
    WithoutPathNoop(w[..k], path);
    WithoutPathPrepend(RecentEntry(name, path), w[..k], path);
  }

  lemma {:induction false} WithoutPathPrepend(e: RecentEntry, rs: seq<RecentEntry>, path: string)
    requires e.path == path
    ensures WithoutPath([e] + rs, path) == WithoutPath(rs, path)
  {
    if rs == [] {
      assert [e] + rs == [e];
      assert [e][..0] == [];
    } else {
      WithoutPathPrepend(e, rs[..|rs| - 1], path);
      assert ([e] + rs)[..|[e] + rs| - 1] == [e] + rs[..|rs| - 1];
    }
  }

  /** Adding the same entry twice gives the same list as adding it once. */
  lemma AddedRecentIdempotent(rs: seq<RecentEntry>, name: string, path: string)
    ensures AddedRecent(AddedRecent(rs, name, path), name, path) == AddedRecent(rs, name, path)
  {
    var r := AddedRecent(rs, name, path);
    AddedRecentKeepsOthers(rs, name, path);
  }

  class SettingsManager {
    var recents: seq<RecentEntry>

    /** The state after `load_settings` found the given stored list. */
    constructor (stored: seq<RecentEntry>)
      ensures recents == stored
    {
      recents := stored;
    }

    method AddRecent(name: string, path: string)
      modifies this
      ensures recents == AddedRecent(old(recents), name, path)
    {
      recents := WithoutPath(recents, path);
      recents := [RecentEntry(name, path)] + recents;
      recents := recents[..if |recents| < MaxRecents then |recents| else MaxRecents];
    }

    method GetRecents() returns (r: seq<RecentEntry>)
      ensures r == recents
    {
      r := recents;
    }
  }
}
