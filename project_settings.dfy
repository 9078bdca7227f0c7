/** Participant management of the project settings dialog
    (src/ui/dialogs/project_settings_dialog.py): smallest-free id generation,
    adding with a sort by numeric id, deletion, the usage count and the unlinking
    of labels that reference a deleted participant. Widgets and message boxes are
    not modelled; the user's answer to the confirmation box is a parameter. */
module ProjectSettings {
  import opened Text
  import opened ProjectData
  import Sorting

  // ---------------------------------------------------------------------------
  // Numeric ids

  /** `int(p["id"].replace("p", ""))`, or `None` where that raises `ValueError`. */
  function Key(p: Participant): Option<int> {
    ParseInt(RemoveChar(p.id, 'p'))
  }

  predicate Keyed(p: Participant) { Key(p).Some? }

  function NumKey(p: Participant): int
    requires Keyed(p)
  {
    Key(p).value
  }

  /** The values of the keys that are present, over the elements of s. */
  function PresentKeys<T>(s: seq<T>, key: T -> Option<int>): set<int> {
    if s == [] then {}
    else
      var init := PresentKeys(s[..|s| - 1], key);
      match key(s[|s| - 1])
      case Some(v) => init + {v}
      case None => init
  }

  lemma {:induction false} PresentKeysHasAt<T>(s: seq<T>, key: T -> Option<int>, i: nat)
    requires i < |s| && key(s[i]).Some?
    ensures key(s[i]).value in PresentKeys(s, key)
  {
    var init := s[..|s| - 1];
    if i < |init| {
      assert init[i] == s[i];
      PresentKeysHasAt(init, key, i);
    }
  }

  lemma {:induction false} PresentKeysExact<T>(s: seq<T>, key: T -> Option<int>, v: int)
    requires v in PresentKeys(s, key)
    ensures exists i :: 0 <= i < |s| && key(s[i]) == Some(v)
  {
    var init := s[..|s| - 1];
    if key(s[|s| - 1]) != Some(v) {
      PresentKeysExact(init, key, v);
      var i :| 0 <= i < |init| && key(init[i]) == Some(v);
      assert s[i] == init[i];
    }
  }

  /** The set `existing_ids` that `generate_new_id` builds: the ids that parse. */
  function ParsedIds(ps: seq<Participant>): set<int> {
    PresentKeys(ps, Key)
  }

  /** Every id that parses is in `ParsedIds`. */
  lemma ParsedIdsHas(ps: seq<Participant>)
    ensures forall i :: 0 <= i < |ps| && Keyed(ps[i]) ==> NumKey(ps[i]) in ParsedIds(ps)
  {
    forall i | 0 <= i < |ps| && Keyed(ps[i]) ensures NumKey(ps[i]) in ParsedIds(ps) {
      PresentKeysHasAt(ps, Key, i);
    }
  }

  /** Every element of `ParsedIds` is the id of some participant. */
  lemma ParsedIdsExact(ps: seq<Participant>, v: int)
    requires v in ParsedIds(ps)
    ensures exists i :: 0 <= i < |ps| && Key(ps[i]) == Some(v)
  {
    PresentKeysExact(ps, Key, v);
  }

  /** A set holding all of 1 .. n-1 has at least n - 1 elements. */
  lemma {:induction false} CoveredRangeBound(s: set<int>, n: int)
    requires n >= 1 && forall m :: 1 <= m < n ==> m in s
    ensures n - 1 <= |s|
  {
    if n > 1 {
      var s' := s - {n - 1};
      CoveredRangeBound(s', n - 1);
    }
  }

  /** n is the smallest integer >= 1 that is not in s. */
  predicate SmallestFree(n: int, s: set<int>) {
    n >= 1 && n !in s && forall m :: 1 <= m < n ==> m in s
  }

  /** The first integer >= n missing from s; with all of 1 .. n-1 in s, the smallest
      free id of s. */
  function FirstFree(s: set<int>, n: int): (r: int)
    requires n >= 1 && forall m :: 1 <= m < n ==> m in s
    ensures SmallestFree(r, s)
    decreases |s| + 1 - n
  {
    CoveredRangeBound(s, n);
    if n in s then
      CoveredRangeBound(s, n + 1);
      FirstFree(s, n + 1)
    else n
  }

  /** The `while n in existing_ids` search of `generate_new_id`. */
  method SmallestFreeIn(existing: set<int>) returns (n: nat)
    ensures n == FirstFree(existing, 1)
  {
    n := 1;
    while n in existing
      invariant n >= 1
      invariant forall m :: 1 <= m < n ==> m in existing
      invariant FirstFree(existing, n) == FirstFree(existing, 1)
      decreases |existing| + 1 - n
    {
      CoveredRangeBound(existing, n + 1);
      n := n + 1;
    }
  }

  /** `f"p{n}"`. */
  function IdFor(n: nat): string {
    "p" + NatToString(n)
  }

  lemma {:induction false} RemoveCharLeading(c: char, d: string)
    requires forall i :: 0 <= i < |d| ==> d[i] != c
    ensures RemoveChar([c] + d, c) == d
  {
    if d == [] {
      assert [c] + d == [c];
      assert [c][..0] == [];
    } else {
      var e := d[..|d| - 1];
      RemoveCharLeading(c, e);
      assert ([c] + d)[..|[c] + d| - 1] == [c] + e;
      assert d == e + [d[|d| - 1]];
    }
  }

  /** A generated id parses back to its number, so the next generation sees it. */
  lemma IdForParsesBack(n: nat, name: string)
    ensures Key(Participant(IdFor(n), name)) == Some(n)
  {
    RemoveCharLeading('p', NatToString(n));
    ParseNatToString(n);
  }

  // ---------------------------------------------------------------------------
  // Sorting by numeric id (Python's stable list.sort with a key)

  predicate AllKeyed(ps: seq<Participant>) {
    forall i :: 0 <= i < |ps| ==> Keyed(ps[i])
  }

  /** The sort key; the handler sorts only lists on which `AllKeyed` holds, where it
      is `NumKey`. */
  function SortKey(p: Participant): (k: int)
    ensures Keyed(p) ==> k == NumKey(p)
  {
    match Key(p)
    case Some(v) => v
    case None => 0
  }

  /** `participants.sort(key=...)`. */
  function SortParticipants(ps: seq<Participant>): seq<Participant> {
    Sorting.SortBy(ps, SortKey)
  }

  /** Sorted by numeric id (on a keyed list). */
  predicate SortedById(ps: seq<Participant>) {
    Sorting.SortedBy(ps, SortKey)
  }

  /** On a keyed list the sort holds the same participants, all keyed, ordered by
      their numeric ids. */
  lemma SortParticipantsCorrect(ps: seq<Participant>)
    requires AllKeyed(ps)
    ensures multiset(SortParticipants(ps)) == multiset(ps)
    ensures AllKeyed(SortParticipants(ps))
    ensures forall i, j :: 0 <= i < j < |ps| ==>
      NumKey(SortParticipants(ps)[i]) <= NumKey(SortParticipants(ps)[j])
  {
    Sorting.SortBySorted(ps, SortKey);
    Sorting.SortByPermutes(ps, SortKey);
    var r := SortParticipants(ps);
    forall i | 0 <= i < |r| ensures Keyed(r[i]) {
      assert r[i] in multiset(ps);
    }
  }

  /** Python's sort is stable: participants whose ids have the same numeric value
      (such as "p1" and "p01" in a loaded file) keep their order. */
  lemma SortParticipantsStable(ps: seq<Participant>, k: int)
    ensures Sorting.WithKey(SortParticipants(ps), SortKey, k) == Sorting.WithKey(ps, SortKey, k)
  {
    Sorting.SortByStable(ps, SortKey, k);
  }

  // ---------------------------------------------------------------------------
  // Deletion and label links

  /** `[p for p in participants if p["id"] != pid]`. */
  function WithoutId(ps: seq<Participant>, pid: string): (r: seq<Participant>)
    ensures forall i :: 0 <= i < |r| ==> r[i].id != pid
  {
    if ps == [] then []
    else if ps[|ps| - 1].id == pid then WithoutId(ps[..|ps| - 1], pid)
      else WithoutId(ps[..|ps| - 1], pid) + [ps[|ps| - 1]]
  }

  /** The filter works element by element and keeps the order: filtering a
      concatenation filters each part. */
  lemma {:induction false} WithoutIdAppend(a: seq<Participant>, b: seq<Participant>, pid: string)
    ensures WithoutId(a + b, pid) == WithoutId(a, pid) + WithoutId(b, pid)
  {
    if b == [] {
      assert a + b == a;
    } else {
      var c, init, last := a + b, b[..|b| - 1], b[|b| - 1];
      assert c[..|c| - 1] == a + init && c[|c| - 1] == last;
      assert b[..|b| - 1] == init && b[|b| - 1] == last;
      WithoutIdAppend(a, init, pid);
      if last.id == pid {
        assert WithoutId(c, pid) == WithoutId(a + init, pid);
        assert WithoutId(b, pid) == WithoutId(init, pid);
      } else {
        assert WithoutId(c, pid) == WithoutId(a + init, pid) + [last];
        assert WithoutId(b, pid) == WithoutId(init, pid) + [last];
      }
    }
  }

  /** Every participant with another id keeps its number of occurrences. */
  lemma {:induction false} WithoutIdKeepsOthers(ps: seq<Participant>, pid: string)
    ensures forall q: Participant :: q.id != pid ==> multiset(WithoutId(ps, pid))[q] == multiset(ps)[q]
  {
    if ps != [] {
      WithoutIdKeepsOthers(ps[..|ps| - 1], pid);
      assert ps == ps[..|ps| - 1] + [ps[|ps| - 1]];
    }
  }

  lemma WithoutIdSingle(p: Participant, pid: string)
    ensures WithoutId([p], pid) == if p.id == pid then [] else [p]
  {
    assert [p][..0] == [];
  }

  function UnlinkLabel(l: Label, pid: string): Label {
    if l.participantId == Some(pid) then l.(participantId := None) else l
  }

  function UnlinkVideo(v: Video, pid: string): Video {
    v.(labels := seq(|v.labels|, k requires 0 <= k < |v.labels| => UnlinkLabel(v.labels[k], pid)))
  }

  /** The project's videos after `remove_participant_links(pid)`. */
  function Unlinked(vs: seq<Video>, pid: string): seq<Video> {
    seq(|vs|, i requires 0 <= i < |vs| => UnlinkVideo(vs[i], pid))
  }

  /** Number of labels of ls whose `idParticipante` equals pid. */
  function LabelCount(ls: seq<Label>, pid: string): nat {
    if ls == [] then 0
    else LabelCount(ls[..|ls| - 1], pid) + (if ls[|ls| - 1].participantId == Some(pid) then 1 else 0)
  }

  /** Number of labels, across all videos, whose `idParticipante` equals pid. */
  function UsageCount(vs: seq<Video>, pid: string): nat {
    if vs == [] then 0 else UsageCount(vs[..|vs| - 1], pid) + LabelCount(vs[|vs| - 1].labels, pid)
  }

  /** Unlinking sets every reference to pid to None and leaves every other label,
      and every other field of every video, as it was. */
  lemma UnlinkedSpec(vs: seq<Video>, pid: string)
    ensures |Unlinked(vs, pid)| == |vs|
    ensures forall i :: 0 <= i < |vs| ==>
      && Unlinked(vs, pid)[i].path == vs[i].path
      && Unlinked(vs, pid)[i].name == vs[i].name
      && Unlinked(vs, pid)[i].duration == vs[i].duration
      && |Unlinked(vs, pid)[i].labels| == |vs[i].labels|
    ensures forall i, k :: 0 <= i < |vs| && 0 <= k < |vs[i].labels| ==>
      Unlinked(vs, pid)[i].labels[k] ==
        if vs[i].labels[k].participantId == Some(pid) then Label(None, vs[i].labels[k].payload)
        else vs[i].labels[k]
  {
  }

  lemma {:induction false} LabelCountUnlinked(ls: seq<Label>, pid: string)
    ensures LabelCount(UnlinkVideo(Video("", "", None, ls), pid).labels, pid) == 0
  {
    var u := UnlinkVideo(Video("", "", None, ls), pid).labels;
    if ls != [] {
      var init := ls[..|ls| - 1];
      LabelCountUnlinked(init, pid);
      assert u[..|u| - 1] == UnlinkVideo(Video("", "", None, init), pid).labels;
    }
  }

  /** After unlinking, no label is counted as using pid. */
  lemma {:induction false} UsageCountUnlinked(vs: seq<Video>, pid: string)
    ensures UsageCount(Unlinked(vs, pid), pid) == 0
  {
    var u := Unlinked(vs, pid);
    if vs != [] {
      var init := vs[..|vs| - 1];
      UsageCountUnlinked(init, pid);
      assert u[..|u| - 1] == Unlinked(init, pid);
      var last := vs[|vs| - 1];
      LabelCountUnlinked(last.labels, pid);
      assert u[|u| - 1].labels == UnlinkVideo(Video("", "", None, last.labels), pid).labels;
    }
  }

  // ---------------------------------------------------------------------------
  // The dialog

  /** The list after `add_participant` appends the typed name under a fresh id. */
  function WithNewParticipant(ps: seq<Participant>, typed: string): seq<Participant> {
    ps + [Participant(IdFor(FirstFree(ParsedIds(ps), 1)), Strip(typed))]
  }

  /** An id `IdFor(n)` always parses, so appending it leaves the list keyed exactly
      when it was. */
  lemma AppendFreshKeyed(ps: seq<Participant>, n: nat, name: string)
    ensures AllKeyed(ps + [Participant(IdFor(n), name)]) <==> AllKeyed(ps)
  {
    var l := ps + [Participant(IdFor(n), name)];
    IdForParsesBack(n, name);
    assert forall i :: 0 <= i < |ps| ==> l[i] == ps[i];
  }

  /** The sort after `add_participant`'s append raises exactly when it would have
      raised on the list before. */
  lemma WithNewParticipantKeyed(ps: seq<Participant>, typed: string)
    ensures AllKeyed(WithNewParticipant(ps, typed)) <==> AllKeyed(ps)
  {
    AppendFreshKeyed(ps, FirstFree(ParsedIds(ps), 1), Strip(typed));
  }

  class ProjectSettingsDialog {
    /** The dialog's copy of `participantes`. */
    var participants: seq<Participant>
    /** `project_data["arquivosDeVideo"]`, whose labels the dialog rewrites. */
    var videos: seq<Video>
    var hasChanges: bool
    /** Text of the "new participant" input. */
    var newParticipantInput: string

    constructor (projectVideos: seq<Video>, projectParticipants: seq<Participant>)
      ensures participants == projectParticipants && videos == projectVideos
      ensures !hasChanges && newParticipantInput == ""
    {
      participants := projectParticipants;
      videos := projectVideos;
      hasChanges := false;
      newParticipantInput := "";
    }

    /** The user types into the "new participant" input. */
    method TypeNewParticipant(text: string)
      modifies this`newParticipantInput
      ensures newParticipantInput == text
    {
      newParticipantInput := text;
    }

    /** `on_change`. */
    method OnChange()
      modifies this`hasChanges
      ensures hasChanges
    {
      hasChanges := true;
    }

    method GenerateNewId() returns (id: string)
      ensures id == IdFor(FirstFree(ParsedIds(participants), 1))
    {
      var existing: set<int> := {};
      var i := 0;
      while i < |participants|
        invariant 0 <= i <= |participants|
        invariant existing == ParsedIds(participants[..i])
      {
        assert participants[..i + 1][..i] == participants[..i];
        var k := Key(participants[i]);
        if k.Some? {
          existing := existing + {k.value};
        }
        i := i + 1;
      }
      assert participants[..i] == participants;
      var n := SmallestFreeIn(existing);
      id := IdFor(n);
    }

    method AddParticipant()
      modifies this`participants, this`newParticipantInput, this`hasChanges
      ensures Strip(old(newParticipantInput)) == "" ==>
        participants == old(participants) && newParticipantInput == old(newParticipantInput)
        && hasChanges == old(hasChanges)
      ensures Strip(old(newParticipantInput)) != "" && AllKeyed(old(participants)) ==>
        && participants == SortParticipants(WithNewParticipant(old(participants), old(newParticipantInput)))
        && newParticipantInput == "" && hasChanges
      // some existing id does not parse: the sort key raises ValueError after the
      // append, and the rest of the handler does not run
      ensures Strip(old(newParticipantInput)) != "" && !AllKeyed(old(participants)) ==>
        && participants == WithNewParticipant(old(participants), old(newParticipantInput))
        && newParticipantInput == old(newParticipantInput) && hasChanges == old(hasChanges)
    {
      var name := Strip(newParticipantInput);
      if name == "" {
        return;
      }
      var newId := GenerateNewId();
      WithNewParticipantKeyed(participants, newParticipantInput);
      participants := participants + [Participant(newId, name)];
      if !AllKeyed(participants) {
        return;
      }
      participants := SortParticipants(participants);
      newParticipantInput := "";
      OnChange();
    }

    method CountUsage(pid: string) returns (count: nat)
      ensures count == UsageCount(videos, pid)
    {
      count := 0;
      var i := 0;
      while i < |videos|
        invariant 0 <= i <= |videos|
        invariant count == UsageCount(videos[..i], pid)
      {
        var labels := videos[i].labels;
        var j := 0;
        while j < |labels|
          invariant 0 <= j <= |labels|
          invariant count == UsageCount(videos[..i], pid) + LabelCount(labels[..j], pid)
        {
          assert labels[..j + 1][..j] == labels[..j];
          if labels[j].participantId == Some(pid) {
            count := count + 1;
          }
          j := j + 1;
        }
        assert labels[..j] == labels;
        assert videos[..i + 1][..i] == videos[..i];
        i := i + 1;
      }
      assert videos[..i] == videos;
    }

    method RemoveParticipantLinks(pid: string)
      modifies this`videos
      ensures videos == Unlinked(old(videos), pid)
    {
      var i := 0;
      while i < |videos|
        invariant 0 <= i <= |videos| == |old(videos)|
        invariant forall k :: 0 <= k < i ==> videos[k] == UnlinkVideo(old(videos)[k], pid)
        invariant forall k :: i <= k < |videos| ==> videos[k] == old(videos)[k]
      {
        var j := 0;
        while j < |videos[i].labels|
          invariant i < |videos| == |old(videos)|
          invariant 0 <= j <= |videos[i].labels| == |old(videos)[i].labels|
          invariant videos[i].(labels := []) == old(videos)[i].(labels := [])
          invariant forall k :: 0 <= k < j ==> videos[i].labels[k] == UnlinkLabel(old(videos)[i].labels[k], pid)
          invariant forall k :: j <= k < |videos[i].labels| ==> videos[i].labels[k] == old(videos)[i].labels[k]
          invariant forall k :: 0 <= k < i ==> videos[k] == UnlinkVideo(old(videos)[k], pid)
          invariant forall k :: i < k < |videos| ==> videos[k] == old(videos)[k]
        {
          var rotulo := videos[i].labels[j];
          if rotulo.participantId == Some(pid) {
            videos := videos[i := videos[i].(labels := videos[i].labels[j := rotulo.(participantId := None)])];
          }
          j := j + 1;
        }
        assert videos[i] == UnlinkVideo(old(videos)[i], pid);
        i := i + 1;
      }
      assert videos == Unlinked(old(videos), pid);
    }

    /** `delete_participant(pid, ...)`; `confirmed` is the user's answer to the
        confirmation box, which is shown only when some label uses pid. */
    method DeleteParticipant(pid: string, confirmed: bool)
      modifies this`participants, this`videos, this`hasChanges
      ensures UsageCount(old(videos), pid) > 0 && !confirmed ==>
        participants == old(participants) && videos == old(videos) && hasChanges == old(hasChanges)
      ensures UsageCount(old(videos), pid) == 0 || confirmed ==>
        && participants == WithoutId(old(participants), pid)
        && videos == (if UsageCount(old(videos), pid) > 0 then Unlinked(old(videos), pid) else old(videos))
        && hasChanges
    {
      var usage := CountUsage(pid);
      if usage > 0 {
        if !confirmed {
          return;
        }
        RemoveParticipantLinks(pid);
      }
      participants := WithoutId(participants, pid);
      OnChange();
    }

    /** `save_edit` for the participant shown in row `row`; returns the text the row
        shows afterwards. */
    method SaveEdit(row: nat, text: string) returns (shown: string)
      requires row < |participants|
      modifies this`participants, this`hasChanges
      ensures Strip(text) != "" ==>
        && participants == old(participants)[row := old(participants)[row].(name := Strip(text))]
        && hasChanges && shown == text
      ensures Strip(text) == "" ==>
        participants == old(participants) && hasChanges == old(hasChanges)
        && shown == old(participants)[row].name
    {
      var newName := Strip(text);
      if newName != "" {
        participants := participants[row := participants[row].(name := newName)];
        OnChange();
        shown := text;
      } else {
        shown := participants[row].name;
      }
    }
  }

  /** The id that `add_participant` gives a new participant parses to a number no
      participant of the list has, the smallest such number from 1 up. */
  lemma NewIdIsFresh(ps: seq<Participant>, typed: string)
    ensures var x := WithNewParticipant(ps, typed)[|ps|];
      && x.name == Strip(typed)
      && Key(x) == Some(FirstFree(ParsedIds(ps), 1))
      && (forall m :: 1 <= m < FirstFree(ParsedIds(ps), 1) ==> m in ParsedIds(ps))
      && (forall i :: 0 <= i < |ps| && Keyed(ps[i]) ==> NumKey(ps[i]) != NumKey(x))
  {
    IdForParsesBack(FirstFree(ParsedIds(ps), 1), Strip(typed));
    ParsedIdsHas(ps);
  }

  /** Appending a participant whose numeric id is new to a sorted, keyed list and
      sorting puts it in its place by id: the result is sorted, holds exactly the old
      participants and the new one, and the old ones keep their order. */
  lemma AddKeepsSortedAndAddsOne(ps: seq<Participant>, x: Participant)
    requires AllKeyed(ps) && SortedById(ps) && Keyed(x)
    ensures AllKeyed(ps + [x])
    ensures SortedById(SortParticipants(ps + [x]))
    ensures multiset(SortParticipants(ps + [x])) == multiset(ps) + multiset{x}
    ensures var k := Sorting.InsertPos(ps, x, SortKey);
      SortParticipants(ps + [x]) == ps[..k] + [x] + ps[k..]
  {
    var l := ps + [x];
    assert forall i :: 0 <= i < |ps| ==> l[i] == ps[i];
    assert l[|ps|] == x;
    assert AllKeyed(l);
    SortParticipantsCorrect(l);
    Sorting.SortAfterAppend(ps, x, SortKey);
    Sorting.InsertBySplits(ps, x, SortKey);
  }
}
