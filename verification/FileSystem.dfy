/**
 A small file system with directory entries, inodes and open descriptors, and the ownership records the
 installer keeps of the files it creates.  An inode that has no name and no descriptor left is freed and may be
 reused; every change of a file moves its ctime.
 */
module FileSystem {
  import opened Outcomes

  type Bytes = seq<bv8>

  datatype File = File(bytes: Bytes, ctime: nat)

  datatype World = World(names: map<string, nat>, files: map<nat, File>, open: map<nat, nat>, clock: nat)

  /** What the installer remembers of a file it created; `handle` is the duplicated descriptor. */
  datatype Record = Record(path: string, inode: nat, ctime: nat, handle: Option<nat>, bytes: Bytes, complete: bool)

  /** Names and descriptors refer to live inodes, and every live inode has a name or a descriptor. */
  predicate Sane(w: World) {
    && (forall p :: p in w.names ==> w.names[p] in w.files)
    && (forall d :: d in w.open ==> w.open[d] in w.files)
    && (forall i :: i in w.files ==> i in w.names.Values || i in w.open.Values)
    && (forall i :: i in w.files ==> w.files[i].ctime <= w.clock)
  }

  // ----- System calls -----

  function Create(w: World, path: string, i: nat, d: nat): World {
    World(w.names[path := i], w.files[i := File([], w.clock + 1)], w.open[d := i], w.clock + 1)
  }

  function Duplicate(w: World, d: nat, copy: nat): World
    requires d in w.open
  {
    w.(open := w.open[copy := w.open[d]])
  }

  function Append(w: World, d: nat, bytes: Bytes): World
    requires d in w.open && w.open[d] in w.files
  {
    var i := w.open[d];
    w.(files := w.files[i := File(w.files[i].bytes + bytes, w.clock + 1)], clock := w.clock + 1)
  }

  /** Frees the inodes nothing refers to any more. */
  function Reap(w: World): World {
    w.(files := map i | i in w.files && (i in w.names.Values || i in w.open.Values) :: w.files[i])
  }

  /** Closing a descriptor that is not open is an error of the caller. */
  function Close(w: World, d: nat): World
    requires d in w.open
  {
    Reap(w.(open := w.open - {d}))
  }

  function Unlink(w: World, path: string): World
    requires path in w.names
  {
    Reap(w.(names := w.names - {path}))
  }

  // ----- Ownership -----

  /** The file behind the record's descriptor is the one under its path, unchanged since the record was made. */
  predicate Matches(w: World, r: Record) {
    && r.handle.Some?
    && r.path in w.names && w.names[r.path] == r.inode && r.inode in w.files
    && w.files[r.inode].ctime == r.ctime
    && if r.complete then w.files[r.inode].bytes == r.bytes else w.files[r.inode].bytes <= r.bytes
  }

  /** The duplicated descriptor keeps the inode alive, so that its number cannot come to mean another file. */
  predicate Held(w: World, r: Record) {
    r.handle.Some? ==> r.handle.value in w.open && w.open[r.handle.value] == r.inode
  }

  predicate Own(w: World, r: Record) {
    Matches(w, r) && Held(w, r)
  }

  function Paths(rs: seq<Record>): set<string> {
    set r | r in rs :: r.path
  }

  function Inodes(rs: seq<Record>): set<nat> {
    set r | r in rs :: r.inode
  }

  function Handles(rs: seq<Record>): set<nat> {
    set r | r in rs && r.handle.Some? :: r.handle.value
  }

  ghost predicate Separate(rs: seq<Record>) {
    forall i, j :: 0 <= i < j < |rs| ==>
      rs[i].path != rs[j].path && rs[i].inode != rs[j].inode && (rs[i].handle.Some? ==> rs[i].handle != rs[j].handle)
  }

  ghost predicate Grows<K, V>(m0: map<K, V>, m: map<K, V>, added: set<K>) {
    m0.Keys !! added && m.Keys == m0.Keys + added && forall k :: k in m0 ==> m[k] == m0[k]
  }

  // ----- Removal -----

  /** Index of the first record rollback refuses, or the number of records. */
  function FirstRefused(w: World, rs: seq<Record>): (k: nat)
    ensures k <= |rs| && (k < |rs| ==> !Matches(w, rs[k]))
    ensures forall i :: 0 <= i < k ==> Matches(w, rs[i])
  {
    if rs == [] || !Matches(w, rs[0]) then 0 else 1 + FirstRefused(w, rs[1..])
  }

  function Dropped(r: Record): Record {
    r.(handle := None)
  }

  /** Descriptors of this run refer to the recorded inodes, no two records share anything. */
  ghost predicate Tracked(w: World, rs: seq<Record>) {
    Separate(rs) && forall i :: 0 <= i < |rs| ==> Held(w, rs[i])
  }

  /** The file goes away completely: name, descriptor and inode; nothing else changes. */
  ghost predicate Removed(before: World, after: World, r: Record) {
    && r.handle.Some? && after.names == before.names - {r.path} && after.open == before.open - {r.handle.value}
    && (forall i :: i in after.files ==> i in before.files && after.files[i] == before.files[i])
    && (forall i :: i in before.files && i != r.inode ==> i in after.files)
    && after.clock == before.clock && Sane(after)
  }

  lemma RemovalIsExact(before: World, r: Record)
    requires Sane(before) && Own(before, r)
    ensures r.handle.value in Unlink(before, r.path).open
    ensures Removed(before, Close(Unlink(before, r.path), r.handle.value), r)
  {
    var d := r.handle.value;
    var unlinked := Unlink(before, r.path);
    var after := Close(unlinked, d);
    assert after.names == before.names - {r.path} && after.open == before.open - {d};
    forall i | i in before.files && i != r.inode ensures i in unlinked.files && i in after.files {
      if i in before.names.Values {
        var p :| p in before.names && before.names[p] == i;
        assert p in after.names && after.names[p] == i;
        assert p in unlinked.names && unlinked.names[p] == i;
      } else {
        var h :| h in before.open && before.open[h] == i;
        assert h in after.open && after.open[h] == i;
        assert h in unlinked.open && unlinked.open[h] == i;
      }
    }
    SaneAfterRemoval(before, unlinked, after, r.path, d, r.inode);
  }

  lemma SaneAfterRemoval(before: World, unlinked: World, after: World, path: string, d: nat, inode: nat)
    requires Sane(before) && path in before.names && unlinked == Unlink(before, path) && d in unlinked.open
    requires after == Close(unlinked, d)
    requires forall i :: i in before.files && i != inode ==> i in after.files
    requires before.open[d] == inode
    ensures Sane(after)
  {
    forall p | p in after.names ensures after.names[p] in after.files {
      assert p in before.names && after.names[p] == before.names[p] && after.names[p] in after.names.Values;
    }
    forall h | h in after.open ensures after.open[h] in after.files {
      assert h in before.open && after.open[h] == before.open[h] && after.open[h] in after.open.Values;
      assert h in unlinked.open && unlinked.open[h] in unlinked.open.Values;
    }
  }

  /** Removing one tracked file leaves every other record as it was. */
  lemma OthersUnaffected(before: World, after: World, r: Record, s: Record)
    requires Removed(before, after, r) && Held(before, r) && Held(before, s)
    requires r.path != s.path && r.inode != s.inode && r.handle != s.handle
    ensures Held(after, s) && (Matches(after, s) <==> Matches(before, s))
  {
  }

  // ----- Creating one file -----

  /** The created file is open twice and nothing else has changed. */
  ghost predicate Writing(before: World, during: World, path: string, i: nat, d: nat, copy: nat) {
    && Sane(during) && during.clock >= before.clock
    && path !in before.names && i !in before.files && d !in before.open && copy !in before.open && d != copy
    && during.names == before.names[path := i] && during.open == before.open[d := i][copy := i]
    && i in during.files && during.files == before.files[i := during.files[i]]
  }

  lemma CreateIsSane(before: World, path: string, i: nat, d: nat)
    requires Sane(before) && path !in before.names && d !in before.open
    ensures Sane(Create(before, path, i, d))
  {
    var during := Create(before, path, i, d);
    assert during.open[d] == i;
    forall j | j in before.files ensures j in during.names.Values || j in during.open.Values {
      if j in before.names.Values {
        var p :| p in before.names && before.names[p] == j;
        assert p in during.names && during.names[p] == j;
      } else {
        var h :| h in before.open && before.open[h] == j;
        assert h in during.open && during.open[h] == j;
      }
    }
  }

  lemma StartWriting(before: World, path: string, i: nat, d: nat, copy: nat)
    requires Sane(before) && path !in before.names && i !in before.files && d !in before.open
    requires copy !in Create(before, path, i, d).open
    ensures d in Create(before, path, i, d).open
    ensures Writing(before, Duplicate(Create(before, path, i, d), d, copy), path, i, d, copy)
    ensures Duplicate(Create(before, path, i, d), d, copy).files[i] == File([], before.clock + 1)
  {
    var after := Create(before, path, i, d);
    CreateIsSane(before, path, i, d);
    var doubled := Duplicate(after, d, copy);
    forall x ensures x in doubled.open.Values <==> x in after.open.Values {
      if x in after.open.Values {
        var h :| h in after.open && after.open[h] == x;
        assert h in doubled.open && doubled.open[h] == x;
      }
    }
    SameReferences(after, doubled);
  }

  lemma SameReferences(v: World, w: World)
    requires Sane(v) && w.names == v.names && w.files == v.files && w.clock == v.clock
    requires w.open.Values == v.open.Values && forall d :: d in w.open ==> w.open[d] in w.files
    ensures Sane(w)
  {
  }

  lemma FinishWriting(before: World, during: World, path: string, i: nat, d: nat, copy: nat)
    requires Writing(before, during, path, i, d, copy)
    ensures Close(during, d) == during.(open := before.open[copy := i]) && Sane(Close(during, d))
  {
    var after := during.(open := during.open - {d});
    assert after.open == before.open[copy := i];
    assert copy in after.open && after.open[copy] == i;
    KeepsFiles(during, after, d, copy);
  }

  lemma WritingFacts(before: World, during: World, path: string, i: nat, d: nat, copy: nat)
    requires Writing(before, during, path, i, d, copy)
    ensures Sane(during) && i in during.files && d in during.open && during.open[d] == i
  {
  }

  lemma KeepsWriting(before: World, start: World, during: World, path: string, i: nat, d: nat, copy: nat)
    requires Writing(before, start, path, i, d, copy) && Sane(during) && during.clock >= start.clock
    requires during.names == start.names && during.open == start.open
    requires i in during.files && during.files == start.files[i := during.files[i]]
    ensures Writing(before, during, path, i, d, copy)
  {
    hide Sane;
  }

  /** Closing one of two descriptors of an inode frees nothing. */
  lemma KeepsFiles(during: World, after: World, d: nat, copy: nat)
    requires Sane(during) && d in during.open && copy in during.open && d != copy && during.open[d] == during.open[copy]
    requires after == during.(open := during.open - {d})
    ensures Reap(after) == after && Sane(after)
  {
    forall j | j in during.files ensures j in after.names.Values || j in after.open.Values {
      if j !in during.names.Values {
        var h :| h in during.open && during.open[h] == j;
        var h' := if h == d then copy else h;
        assert h' in after.open && after.open[h'] == j;
      }
    }
  }

  /** Nor does closing the only descriptor of a file that has a name. */
  lemma AbandonWriting(before: World, path: string, i: nat, d: nat)
    requires Sane(before) && path !in before.names && i !in before.files && d !in before.open
    ensures Sane(Create(before, path, i, d)) && d in Create(before, path, i, d).open
    ensures Close(Create(before, path, i, d), d) == Create(before, path, i, d).(open := before.open)
    ensures Sane(Close(Create(before, path, i, d), d))
  {
    var during := Create(before, path, i, d);
    var after := during.(open := during.open - {d});
    assert after.open == before.open;
    CreateIsSane(before, path, i, d);
    NamedIsSane(before, path, i, after);
  }

  lemma NamedIsSane(before: World, path: string, i: nat, after: World)
    requires Sane(before) && path !in before.names
    requires after == World(before.names[path := i], before.files[i := File([], before.clock + 1)], before.open,
                            before.clock + 1)
    ensures Sane(after) && Reap(after) == after
  {
    assert after.names[path] == i;
    forall j | j in before.files ensures j in after.names.Values || j in after.open.Values {
      if j in before.names.Values {
        var p :| p in before.names && before.names[p] == j;
        assert p in after.names && after.names[p] == j;
      }
    }
  }

  // ----- Removing and closing in sequence -----

  lemma AnotherRecord(rs: seq<Record>, r: Record)
    requires r.handle.Some?
    ensures Paths(rs + [r]) == Paths(rs) + {r.path}
    ensures Inodes(rs + [r]) == Inodes(rs) + {r.inode}
    ensures Handles(rs + [r]) == Handles(rs) + {r.handle.value}
  {
  }

  /** The first k records have been removed, the rest is as it was. */
  ghost predicate Progress(w0: World, rs: seq<Record>, w: World, now: seq<Record>, k: nat)
    requires k <= |rs| == |now|
  {
    && Sane(w) && Separate(rs)
    && (forall i :: 0 <= i < k ==> now[i] == Dropped(rs[i]))
    && (forall i :: k <= i < |rs| ==> now[i] == rs[i] && Held(w, rs[i]) && (Matches(w, rs[i]) <==> Matches(w0, rs[i])))
    && w.names == w0.names - Paths(rs[..k]) && w.open == w0.open - Handles(rs[..k])
    && (forall i :: i in w.files ==> i in w0.files && w.files[i] == w0.files[i])
    && (forall i :: i in w0.files && i !in Inodes(rs[..k]) ==> i in w.files)
  }

  lemma NoProgress(w0: World, rs: seq<Record>)
    requires Sane(w0) && Tracked(w0, rs)
    ensures Progress(w0, rs, w0, rs, 0)
  {
    assert w0.names - Paths(rs[..0]) == w0.names && w0.open - Handles(rs[..0]) == w0.open;
  }

  lemma ProgressFacts(w0: World, rs: seq<Record>, w: World, now: seq<Record>, k: nat)
    requires k < |rs| == |now| && Progress(w0, rs, w, now, k)
    ensures Sane(w) && now[k] == rs[k] && Held(w, now[k]) && (Matches(w, now[k]) <==> Matches(w0, rs[k]))
  {
    hide Sane, Matches;
  }

  lemma ProgressStep(w0: World, rs: seq<Record>, before: World, after: World, now: seq<Record>, next: seq<Record>,
                     k: nat)
    requires k < |rs| == |now| && Progress(w0, rs, before, now, k) && Removed(before, after, rs[k])
    requires next == now[k := Dropped(now[k])]
    ensures Progress(w0, rs, after, next, k + 1)
  {
    hide Sane, Matches, Held, Removed, Separate, Paths, Inodes, Handles;
    RemovedFrame(before, after, rs[k]);
    LaterUnaffected(before, after, rs, k);
    AnotherRemoved(rs, k);
    assert after.names == w0.names - Paths(rs[..k + 1]);
    assert after.open == w0.open - Handles(rs[..k + 1]);
  }

  lemma ProgressEnds(w0: World, rs: seq<Record>, w: World, now: seq<Record>, k: nat)
    requires k <= |rs| == |now| && Progress(w0, rs, w, now, k)
    ensures Sane(w)
    ensures forall i :: 0 <= i < k ==> now[i] == Dropped(rs[i])
    ensures forall i :: k <= i < |now| ==> now[i] == rs[i] && Held(w, now[i])
    ensures w.names == w0.names - Paths(rs[..k]) && w.open == w0.open - Handles(rs[..k])
    ensures forall i :: i in w.files ==> i in w0.files && w.files[i] == w0.files[i]
    ensures forall i :: i in w0.files && i !in Inodes(rs[..k]) ==> i in w.files
  {
    hide Sane;
  }

  lemma RemovedFrame(before: World, after: World, r: Record)
    requires Removed(before, after, r)
    ensures r.handle.Some? && after.names == before.names - {r.path} && after.open == before.open - {r.handle.value}
    ensures forall i :: i in after.files ==> i in before.files && after.files[i] == before.files[i]
    ensures forall i :: i in before.files && i != r.inode ==> i in after.files
    ensures Sane(after)
  {
  }

  lemma LaterUnaffected(before: World, after: World, rs: seq<Record>, k: nat)
    requires k < |rs| && Separate(rs) && Removed(before, after, rs[k])
    requires forall i :: k <= i < |rs| ==> Held(before, rs[i])
    ensures forall i :: k < i < |rs| ==> Held(after, rs[i]) && (Matches(after, rs[i]) <==> Matches(before, rs[i]))
  {
    hide Held, Matches, Removed;
    forall i | k < i < |rs| ensures Held(after, rs[i]) && (Matches(after, rs[i]) <==> Matches(before, rs[i])) {
      RemovedFrame(before, after, rs[k]);
      OthersUnaffected(before, after, rs[k], rs[i]);
    }
  }

  lemma AnotherRemoved(rs: seq<Record>, k: nat)
    requires k < |rs| && rs[k].handle.Some?
    ensures Paths(rs[..k + 1]) == Paths(rs[..k]) + {rs[k].path}
    ensures Inodes(rs[..k + 1]) == Inodes(rs[..k]) + {rs[k].inode}
    ensures Handles(rs[..k + 1]) == Handles(rs[..k]) + {rs[k].handle.value}
  {
    assert rs[..k + 1] == rs[..k] + [rs[k]];
    AnotherRecord(rs[..k], rs[k]);
  }

  // ----- Closing -----

  ghost predicate Closing(w0: World, rs: seq<Record>, w: World, now: seq<Record>, k: nat)
    requires k <= |rs| == |now|
  {
    && Sane(w) && Separate(rs)
    && (forall i :: 0 <= i < k ==> now[i] == Dropped(rs[i]))
    && (forall i :: k <= i < |rs| ==> now[i] == rs[i] && Held(w, rs[i]))
    && w.names == w0.names && w.open == w0.open - Handles(rs[..k])
    && (forall i :: i in w.files ==> i in w0.files && w.files[i] == w0.files[i])
    && (forall i :: i in w0.files && i in w0.names.Values ==> i in w.files)
  }

  lemma NothingClosed(w0: World, rs: seq<Record>)
    requires Sane(w0) && Tracked(w0, rs)
    ensures Closing(w0, rs, w0, rs, 0)
  {
    hide Sane;
    assert w0.open - Handles(rs[..0]) == w0.open;
  }

  lemma ClosingFacts(w0: World, rs: seq<Record>, w: World, now: seq<Record>, k: nat)
    requires k < |rs| == |now| && Closing(w0, rs, w, now, k)
    ensures now[k] == rs[k] && Held(w, now[k])
  {
    hide Sane;
  }

  lemma ClosingEnds(w0: World, rs: seq<Record>, w: World, now: seq<Record>)
    requires |rs| == |now| && Closing(w0, rs, w, now, |rs|)
    ensures Sane(w) && w.names == w0.names && w.open == w0.open - Handles(rs)
    ensures forall i :: i in w.files ==> i in w0.files && w.files[i] == w0.files[i]
    ensures forall i :: i in w0.files && i in w0.names.Values ==> i in w.files
    ensures forall i :: 0 <= i < |now| ==> now[i] == Dropped(rs[i])
  {
    hide Sane;
    assert rs[..|rs|] == rs;
  }

  lemma SaneAfterClose(w: World, d: nat)
    requires Sane(w) && d in w.open
    ensures Sane(Close(w, d))
  {
    var after := Close(w, d);
    forall p | p in after.names ensures after.names[p] in after.files { assert after.names[p] in after.names.Values; }
    forall h | h in after.open ensures after.open[h] in after.files {
      assert h in w.open && after.open[h] == w.open[h] && after.open[h] in (w.open - {d}).Values;
    }
  }

  lemma ClosingStep(w0: World, rs: seq<Record>, before: World, after: World, now: seq<Record>, next: seq<Record>,
                    k: nat)
    requires k < |rs| == |now| && Closing(w0, rs, before, now, k) && Held(before, rs[k])
    requires rs[k].handle.None? ==> after == before && next == now
    requires rs[k].handle.Some? ==> after == Close(before, rs[k].handle.value) && next == now[k := Dropped(now[k])]
    ensures |next| == |rs| && Closing(w0, rs, after, next, k + 1)
  {
    hide Sane;
    assert rs[..k + 1] == rs[..k] + [rs[k]];
    if rs[k].handle.Some? {
      SaneAfterClose(before, rs[k].handle.value);
      assert Handles(rs[..k + 1]) == Handles(rs[..k]) + {rs[k].handle.value};
      assert after.open == w0.open - Handles(rs[..k + 1]);
    } else {
      assert Handles(rs[..k + 1]) == Handles(rs[..k]);
    }
  }

  // ----- Foreign changes between creation and rollback -----

  /**
   What other processes can do: anything, except touch this run's descriptors and the identity of the inodes
   those keep alive; changing such a file moves its ctime past the clock.
   */
  ghost predicate Interferes(before: World, after: World, rs: seq<Record>) {
    && Sane(before) && Sane(after) && before.clock <= after.clock
    && forall d :: d in Handles(rs) && d in before.open ==>
         && d in after.open && after.open[d] == before.open[d]
         && (after.files[after.open[d]] == before.files[before.open[d]]
             || after.files[after.open[d]].ctime > before.clock)
  }

  /**
   After arbitrary interference rollback still removes only this run's own files, and a file is refused
   exactly when its name now leads elsewhere or its content or metadata changed.
   */
  lemma OnlyOwnFilesMatch(before: World, after: World, rs: seq<Record>, i: nat)
    requires i < |rs| && Own(before, rs[i]) && Interferes(before, after, rs)
    ensures Held(after, rs[i])
    ensures Matches(after, rs[i])
      <==> rs[i].path in after.names && after.names[rs[i].path] == rs[i].inode
           && rs[i].inode in after.files && after.files[rs[i].inode] == before.files[rs[i].inode]
  {
    assert rs[i] in rs;
    assert rs[i].handle.value in Handles(rs);
  }

  /**
   The removal loop gives up at the first refusal, so it removes every file it still owns exactly when no
   refused record comes before an owned one.
   */
  lemma RollbackIsCompleteIff(w: World, rs: seq<Record>)
    ensures (forall j :: 0 <= j < |rs| && Matches(w, rs[j]) ==> j < FirstRefused(w, rs))
      <==> (forall i, j :: 0 <= i < j < |rs| && Matches(w, rs[j]) ==> Matches(w, rs[i]))
  {
    var k := FirstRefused(w, rs);
    if forall i, j :: 0 <= i < j < |rs| && Matches(w, rs[j]) ==> Matches(w, rs[i]) {
      forall j | k < j < |rs| ensures !Matches(w, rs[j]) { }
    }
  }
}
