/**
 Owned files of the resident installer: exclusive creation with published ownership records, removal of
 unchanged files only, rollback, and which interruptions they survive.
 */
module Ownership {
  import opened Outcomes
  import opened FileSystem

  // ----- Interruptions -----

  /**
   Where an exception strikes while one file is created: before or inside `os.open`; between it and the `try`;
   while the descriptor is duplicated; before the record is published; at a write; at the final comparison;
   before the record is marked complete.
   */
  datatype Point =
    Never | AtOpen | AfterOpen | AtDuplicate | AtPublish | AtWrite(step: nat) | AtCheck | AtComplete

  /** Where a further one cuts the `finally` block short: before the ctime is refreshed, before the close. */
  datatype Cut = Through | BeforeRefresh | BeforeClose

  datatype Fault = Fault(point: Point, cut: Cut)

  /** Whether the write loop gets all bytes out; `accept` says how many each write takes. */
  predicate Accepted(remaining: nat, step: nat, point: Point, accept: nat -> nat)
    decreases remaining
  {
    if remaining == 0 then true
    else if point == AtWrite(step) || accept(step) == 0 then false
    else accept(step) >= remaining || Accepted(remaining - accept(step), step + 1, point, accept)
  }

  /** Whether any byte gets written. */
  predicate WritesAny(encoded: Bytes, point: Point, accept: nat -> nat) {
    encoded != [] && point != AtWrite(0) && accept(0) > 0
  }

  predicate Completes(encoded: Bytes, fault: Fault, accept: nat -> nat) {
    && (fault.point == Never || fault.point.AtWrite?) && fault.cut == Through
    && Accepted(|encoded|, 0, fault.point, accept)
  }

  /**
   What becomes of one file: nothing happens; it exists but no record was published; its record kept an outdated
   ctime; its record is good but the creation failed; it is finished.
   */
  datatype Outcome = Untouched | Unrecorded | Stale | Recorded | Finished

  function OutcomeOf(taken: set<string>, path: string, encoded: Bytes, fault: Fault, accept: nat -> nat): Outcome {
    if path in taken || fault.point == AtOpen then Untouched
    else if fault.point == AfterOpen || fault.point == AtDuplicate || fault.point == AtPublish then Unrecorded
    else if fault.cut == BeforeRefresh && WritesAny(encoded, fault.point, accept) then Stale
    else if Completes(encoded, fault, accept) then Finished
    else Recorded
  }

  /** Whether a descriptor stays open that no published record knows of. */
  predicate Leaks(outcome: Outcome, fault: Fault) {
    outcome != Untouched && (fault.point == AfterOpen || fault.point == AtPublish || fault.cut != Through)
  }

  // ----- The states one creation can leave -----

  ghost predicate Stranded(before: World, after: World, path: string, leaked: set<nat>) {
    && path !in before.names && path in after.names && after.names[path] !in before.files
    && after.names == before.names[path := after.names[path]]
    && after.files == before.files[after.names[path] := File([], before.clock + 1)]
    && Grows(before.open, after.open, leaked)
  }

  /** From publication on: the file is a prefix of the recorded bytes, and the record matches unless it is stale. */
  ghost predicate Published(before: World, after: World, path: string, encoded: Bytes, r: Record, outcome: Outcome,
                            leaked: set<nat>)
  {
    && path !in before.names && r.path == path && r.bytes == encoded && (r.complete <==> outcome == Finished)
    && r.inode !in before.files && r.handle.Some? && r.handle.value !in before.open && r.handle.value !in leaked
    && Held(after, r) && (Matches(after, r) <==> outcome != Stale)
    && after.names == before.names[path := r.inode]
    && r.inode in after.files && after.files == before.files[r.inode := after.files[r.inode]]
    && after.files[r.inode].bytes <= encoded && (r.complete ==> after.files[r.inode].bytes == encoded)
    && Grows(before.open, after.open, leaked + {r.handle.value})
  }

  lemma StrandedBy(before: World, after: World, path: string, i: nat, leaked: set<nat>)
    requires path !in before.names && i !in before.files
    requires after.names == before.names[path := i] && after.files == before.files[i := File([], before.clock + 1)]
    requires Grows(before.open, after.open, leaked)
    ensures Stranded(before, after, path, leaked)
  {
  }

  lemma StrandedName(before: World, after: World, path: string, leaked: set<nat>)
    requires Stranded(before, after, path, leaked)
    ensures path in after.names
  {
  }

  /** The ctime of the file moves with the first byte written. */
  ghost predicate Touched(before: World, during: World, i: nat)
    requires i in during.files
  {
    if during.files[i].bytes == [] then during.files[i].ctime == before.clock + 1
    else during.files[i].ctime > before.clock + 1
  }

  lemma PublishedBy(before: World, during: World, after: World, path: string, i: nat, d: nat, copy: nat, r: Record,
                    outcome: Outcome, leaked: set<nat>)
    requires Writing(before, during, path, i, d, copy) && Touched(before, during, i)
    requires r.path == path && r.inode == i && r.handle == Some(copy) && (r.complete <==> outcome == Finished)
    requires during.files[i].bytes <= r.bytes && (r.complete ==> during.files[i].bytes == r.bytes)
    requires after.names == during.names && after.files == during.files
    requires after.open == (if leaked == {} then before.open[copy := i] else during.open)
      && (leaked == {} || leaked == {d})
    requires r.ctime == (if outcome == Stale then before.clock + 1 else during.files[i].ctime)
    requires outcome == Stale ==> during.files[i].bytes != []
    ensures Published(before, after, path, r.bytes, r, outcome, leaked)
  {
    hide Sane;
  }

  class Installer {
    var w: World
    var created: seq<Record>
    const unused: set<nat> -> nat

    /** `unused` is how the system picks unused inode and descriptor numbers. */
    ghost predicate Valid()
      reads this
    {
      Sane(w) && Separate(created) && forall s: set<nat> :: unused(s) !in s
    }

    constructor (w0: World, pick: set<nat> -> nat)
      requires Sane(w0) && forall s: set<nat> :: pick(s) !in s
      ensures Valid() && w == w0 && created == [] && unused == pick
    {
      w, created, unused := w0, [], pick;
    }

    /** The write loop; an exception strikes at step `AtWrite(step)`, and a write may accept fewer bytes. */
    method WriteAll(d: nat, encoded: Bytes, point: Point, accept: nat -> nat) returns (ok: bool, ghost offset: nat)
      requires Sane(w) && d in w.open && w.files[w.open[d]].bytes == []
      modifies this`w
      ensures Wrote(old(w), w, d, encoded, offset)
      ensures ok <==> Accepted(|encoded|, 0, point, accept)
      ensures ok ==> offset == |encoded|
      ensures offset > 0 <==> WritesAny(encoded, point, accept)
    {
      hide *;
      ghost var w0 := w;
      var at, step := 0, 0;
      ok := true;
      NothingWritten(w, d, encoded);
      WriteStarts(encoded, point, accept);
      while at < |encoded| && ok
        invariant 0 <= at <= |encoded| && Wrote(w0, w, d, encoded, at)
        invariant Writes(encoded, point, accept, at, step, ok)
        decreases |encoded| - at, ok
      {
        var written := if accept(step) <= |encoded| - at then accept(step) else |encoded| - at;
        WriteGoesOn(encoded, point, accept, at, step, written);
        if point == AtWrite(step) || written == 0 {
          ok := false;
        } else {
          WriteMore(w0, w, d, encoded, at, written);
          w := Append(w, d, encoded[at..at + written]);
          at, step := at + written, step + 1;
        }
      }
      WriteEnds(encoded, point, accept, at, step, ok);
      offset := at;
    }

    /**
     `exclusive_file` from publication on: write, and on every path refresh the ctime and close the descriptor
     unless that is cut short; then compare and mark complete.
     */
    method FillPublished(ghost before: World, path: string, i: nat, d: nat, copy: nat, encoded: Bytes, fault: Fault,
                         accept: nat -> nat)
      returns (ok: bool, ghost leaked: set<nat>)
      requires Writing(before, w, path, i, d, copy) && w.files[i] == File([], before.clock + 1) && Sane(w)
      requires i in w.files && d in w.open && w.open[d] == i
      requires created != [] && created[|created| - 1] == Record(path, i, before.clock + 1, Some(copy), encoded, false)
      requires fault.point != AtOpen && fault.point != AfterOpen && fault.point != AtDuplicate
        && fault.point != AtPublish
      modifies this`w, this`created
      ensures Sane(w)
      ensures var o := OutcomeOf(before.names.Keys, path, encoded, fault, accept);
        && (ok <==> o == Finished) && (leaked == {} <==> fault.cut == Through)
        && |created| == |old(created)| && created[..|created| - 1] == old(created)[..|created| - 1]
        && Published(before, w, path, encoded, created[|created| - 1], o, leaked)
    {
      hide Sane, Close, Writing, Wrote, Published, Accepted, WritesAny;
      var n := |created| - 1;
      ghost var start, offset := w, 0;
      NewPath(before, w, path, i, d, copy);
      ok, offset := WriteAll(d, encoded, fault.point, accept);
      ghost var during, wrote := w, offset;
      WroteOn(before, start, w, path, i, d, copy, encoded, offset);
      leaked := if fault.cut == Through then {} else {d};
      var record := created[n];
      if fault.cut == BeforeRefresh {
        ok := false;
      } else {
        record := record.(ctime := w.files[i].ctime);
        if fault.cut == BeforeClose {
          ok := false;
        } else {
          FinishWriting(before, w, path, i, d, copy);
          w := Close(w, d);
          ok := ok && fault.point != AtCheck && w.files[i].bytes == encoded && fault.point != AtComplete;
          record := record.(complete := ok);
        }
        created := created[n := record];
      }
      PublishedBy(before, during, w, path, i, d, copy, record,
                  OutcomeOf(before.names.Keys, path, encoded, fault, accept), leaked);
    }

    /**
     `exclusive_file`.  Its outcome, and whether a descriptor leaks, follow from where the exceptions strike and
     from what the writes accept; each outcome fixes the whole state left behind.
     */
    method ExclusiveFile(path: string, encoded: Bytes, fault: Fault, accept: nat -> nat)
      returns (ok: bool, ghost leaked: set<nat>)
      requires Valid()
      modifies this`w, this`created
      ensures Sane(w)
      ensures var o := OutcomeOf(old(w).names.Keys, path, encoded, fault, accept);
        && (ok <==> o == Finished) && (leaked == {} <==> !Leaks(o, fault))
        && (o == Untouched ==> w == old(w) && created == old(created))
        && (o == Unrecorded ==> created == old(created) && Stranded(old(w), w, path, leaked))
        && (o != Untouched && o != Unrecorded ==>
              && |created| == |old(created)| + 1 && created[..|old(created)|] == old(created)
              && Published(old(w), w, path, encoded, created[|old(created)|], o, leaked))
    {
      hide Sane, Close, Duplicate, Create, Writing, Published, Stranded, Completes, WritesAny;
      if path in w.names || fault.point == AtOpen { return false, {}; }
      var i, d := unused(w.files.Keys), unused(w.open.Keys);
      ghost var before := w;
      w := Create(w, path, i, d);
      CreatedOne(before, path, i, d);
      if fault.point == AfterOpen { return false, {d}; }
      if fault.point == AtDuplicate {
        if fault.cut == Through { w := Close(w, d); }
        return false, if fault.cut == Through then {} else {d};
      }
      var copy := unused(w.open.Keys);
      StartWriting(before, path, i, d, copy);
      w := Duplicate(w, d, copy);
      WritingFacts(before, w, path, i, d, copy);
      var record := Record(path, i, w.files[i].ctime, Some(copy), encoded, false);
      if fault.point == AtPublish {
        Doubled(before, w, path, i, d, copy);
        if fault.cut == Through { w := Close(w, d); }
        return false, if fault.cut == Through then {copy} else {d, copy};
      }
      created := created + [record];
      ok, leaked := FillPublished(before, path, i, d, copy, encoded, fault, accept);
    }

    /** `remove_owned_file`: exactly the unchanged files go; anything else is refused and left alone. */
    method RemoveOwnedFile(k: nat) returns (ok: bool)
      requires k < |created| && Sane(w) && Held(w, created[k])
      modifies this`w, this`created
      ensures ok <==> old(Matches(w, created[k]))
      ensures ok ==> Removed(old(w), w, old(created[k])) && created == old(created)[k := Dropped(old(created[k]))]
      ensures !ok ==> w == old(w) && created == old(created)
    {
      hide Sane, Close, Unlink;
      var record := created[k];
      if !Matches(w, record) { return false; }
      RemovalIsExact(w, record);
      w := Unlink(w, record.path);
      w := Close(w, record.handle.value);
      created := created[k := Dropped(record)];
      ok := true;
    }

    /**
     The removal loop of `rollback`.  It stops at the first record it refuses, and an exception before record
     `limit`, 0 for one while the services are still being stopped, ends it there.  Every file before that point
     is gone without a trace, everything from it on is untouched.
     */
    method RemoveCreated(limit: Option<nat>) returns (ok: bool)
      requires Sane(w) && Tracked(w, created)
      modifies this`w, this`created
      ensures Sane(w)
      ensures var k := RemovedUpTo(old(w), old(created), limit);
        && (ok <==> k == |old(created)|)
        && |created| == |old(created)|
        && (forall i :: 0 <= i < k ==> created[i] == Dropped(old(created)[i]))
        && (forall i :: k <= i < |created| ==> created[i] == old(created)[i] && Held(w, created[i]))
        && w.names == old(w).names - Paths(old(created)[..k])
        && w.open == old(w).open - Handles(old(created)[..k])
        && (forall i :: i in w.files ==> i in old(w).files && w.files[i] == old(w).files[i])
        && (forall i :: i in old(w).files && i !in Inodes(old(created)[..k]) ==> i in w.files)
    {
      hide Progress, Removed, Tracked, FirstRefused;
      ghost var rs, w0 := created, w;
      var k := 0;
      ok := true;
      NoProgress(w0, rs);
      while k < |created| && ok && limit != Some(k)
        invariant k <= |created| == |rs| && Progress(w0, rs, w, created, k)
        invariant k <= FirstRefused(w0, rs) && (!ok ==> k == FirstRefused(w0, rs) < |rs|)
        invariant limit.Some? ==> k <= limit.value
        decreases |created| - k, ok
      {
        ghost var before, now := w, created;
        ProgressFacts(w0, rs, w, created, k);
        ok := RemoveOwnedFile(k);
        if ok {
          ProgressStep(w0, rs, before, w, now, created, k);
          k := k + 1;
        }
      }
      ProgressEnds(w0, rs, w, created, k);
      ok := k == |created|;
    }

    /** `file_record(path)` of the stop action: adopts a file that is already there, as it is now. */
    method Adopt(path: string) returns (ok: bool)
      requires Valid()
      modifies this`w, this`created
      ensures ok <==> path in old(w).names
      ensures !ok ==> w == old(w) && created == old(created)
      ensures ok ==>
        && |created| == |old(created)| + 1 && created[..|old(created)|] == old(created)
        && created[|old(created)|].path == path && created[|old(created)|].complete && Own(w, created[|old(created)|])
        && w.names == old(w).names && w.files == old(w).files
        && Grows(old(w).open, w.open, {created[|old(created)|].handle.value})
      ensures
        ok && Tracked(old(w), old(created)) && AllHeld(old(created)) && path !in Paths(old(created))
        && old(w).names[path] !in Inodes(old(created))
        ==> Tracked(w, created)
    {
      if path !in w.names { return false; }
      var i, copy := w.names[path], unused(w.open.Keys);
      ghost var rs, before := created, w;
      w := w.(open := w.open[copy := i]);
      created := created + [Record(path, i, w.files[i].ctime, Some(copy), w.files[i].bytes, true)];
      if Tracked(before, rs) && AllHeld(rs) && path !in Paths(rs) && i !in Inodes(rs) {
        AdoptedApart(before, rs, path, i, copy);
      }
      ok := true;
    }

    /** Descriptors still held when the run ends are closed, each exactly once. */
    method CloseCreated()
      requires Sane(w) && Tracked(w, created)
      modifies this`w, this`created
      ensures Sane(w) && w.names == old(w).names && w.open == old(w).open - Handles(old(created))
      ensures forall i :: i in w.files ==> i in old(w).files && w.files[i] == old(w).files[i]
      ensures forall i :: i in old(w).files && i in w.names.Values ==> i in w.files
      ensures |created| == |old(created)| && forall i :: 0 <= i < |created| ==> created[i] == Dropped(old(created)[i])
    {
      hide Sane, Closing, Tracked;
      ghost var rs, w0 := created, w;
      var k := 0;
      NothingClosed(w0, rs);
      while k < |created|
        invariant k <= |created| == |rs| && Closing(w0, rs, w, created, k)
        decreases |created| - k
      {
        ghost var before, now := w, created;
        ClosingFacts(w0, rs, w, created, k);
        if created[k].handle.Some? {
          w := Close(w, created[k].handle.value);
          created := created[k := Dropped(created[k])];
        }
        ClosingStep(w0, rs, before, w, now, created, k);
        k := k + 1;
      }
      ClosingEnds(w0, rs, w, created);
    }

    /**
     The install loop: each file is created, then the step after it (bootstrap, readiness, diagnostic) may raise.
     Where it ends is `EndOf`, which depends on the inputs alone; the world is then the old one plus the recorded
     files and, at most, what the last creation left outside its record.
     */
    method Install(files: seq<(string, Bytes)>, fault: nat -> Fault, accept: nat -> nat -> nat, stepFails: nat -> bool)
      returns (ok: bool, ghost x: Extra)
      requires Valid() && created == []
      modifies this`w, this`created
      ensures Valid()
      ensures var e := EndOf(old(w).names.Keys, files, fault, accept, stepFails, 0);
        && (ok <==> e.index == |files|) && Left(old(w), w, created, x, e, |files|, fault)
      ensures CreatedFrom(created, files)
      ensures ok ==> AllOwn(w, created) && forall i :: 0 <= i < |files| ==> created[i].complete
    {
      hide Sane, Separate, EndOf, OutcomeOf, Installing, Ended, Left, Published, Stranded, Leaks, CreatedFrom, AllOwn;
      ghost var w0 := w;
      ghost var e := EndOf(w.names.Keys, files, fault, accept, stepFails, 0);
      x := Extra({}, {}, {});
      ok := true;
      StartInstalling(w, created, files, fault, accept, stepFails);
      var k := 0;
      while k < |files| && ok
        invariant k <= |files| && Sane(w) && forall s: set<nat> :: unused(s) !in s
        invariant Separate(created)
        invariant ok ==> x == Extra({}, {}, {}) && Installing(w0, w, created, e, files, fault, accept, stepFails, k)
        invariant !ok ==> Ended(w0, w, created, x, e, files, fault)
        decreases |files| - k, ok
      {
        var path, encoded := files[k].0, files[k].1;
        ghost var before, rs := w, created;
        ghost var o := OutcomeOf(before.names.Keys, path, encoded, fault(k), accept(k));
        ghost var leaked;
        ok, leaked := ExclusiveFile(path, encoded, fault(k), accept(k));
        if o == Untouched {
          EndsUntouched(w0, w, rs, e, files, fault, accept, stepFails, k);
        } else if o == Unrecorded {
          StrandedName(before, w, path, leaked);
          x := Extra({path}, {w.names[path]}, leaked);
          EndsStranded(w0, before, w, rs, x, leaked, e, files, fault, accept, stepFails, k);
        } else {
          ghost var latest := created[|rs|];
          assert created == rs + [latest];
          if o == Finished && !stepFails(k) {
            GoesOn(w0, before, w, rs, latest, leaked, e, files, fault, accept, stepFails, k);
          } else {
            x := Extra({}, {}, leaked);
            EndsRecorded(w0, before, w, rs, latest, o, leaked, x, e, files, fault, accept, stepFails, k);
          }
        }
        ok := ok && !stepFails(k);
        k := k + 1;
      }
      if ok { EndsWell(w0, w, created, e, files, fault, accept, stepFails); }
      else { EndsBadly(w0, w, created, x, e, files, fault); }
    }

    /**
     One installation, with rollback and the final closing of descriptors.  On success every file is there with
     its bytes and no descriptor stays open.  On failure the old file system comes back if and only if the ending
     is `Recoverable`, and the descriptors if and only if none leaked; both depend on the inputs alone.  In every
     case the names that existed before still lead where they did, to unchanged files.
     */
    method Run(files: seq<(string, Bytes)>, fault: nat -> Fault, accept: nat -> nat -> nat, stepFails: nat -> bool,
               limit: Option<nat>)
      returns (ok: bool)
      requires Valid() && created == []
      modifies this`w, this`created
      ensures Keeps(old(w), w)
      ensures var e := EndOf(old(w).names.Keys, files, fault, accept, stepFails, 0);
        && (ok <==> e.index == |files|)
        && (!ok ==> (w.names == old(w).names <==> Recoverable(e, limit)))
        && (!ok ==> (w.open == old(w).open <==> !Leaks(e.outcome, fault(e.index))))
        && (!ok && Recoverable(e, limit) && !Leaks(e.outcome, fault(e.index)) ==> w.files == old(w).files)
      ensures ok ==>
        && w.open == old(w).open && w.names.Keys == old(w).names.Keys + FileNames(files)
        && (forall f :: f in files ==>
              && f.0 !in old(w).names && f.0 in w.names
              && w.names[f.0] in w.files && w.files[w.names[f.0]].bytes == f.1)
    {
      hide Sane, Own, Adds, Separate, AllOwn, FirstRefused, CreatedFrom, Paths, Handles, Inodes, Tracked, Left,
           RemovedUpTo, Keeps, EndOf, Leaks, Recoverable;
      ghost var w0 := w;
      ghost var e := EndOf(w.names.Keys, files, fault, accept, stepFails, 0);
      ghost var x;
      ok, x := Install(files, fault, accept, stepFails);
      ghost var w1, rs := w, created;
      LeftTracked(w0, w1, rs, x, e, |files|, fault);
      ghost var m := 0;
      if !ok {
        m := RemovedUpTo(w1, rs, limit);
        var removed := RemoveCreated(limit);
        StillTracked(w1, w, rs, created, m);
      } else {
        NothingRemoved(w1, rs);
      }
      ghost var w2, now := w, created;
      CloseCreated();
      AllClosed(w1, w2, w, rs, now, m);
      AfterAll(w0, w1, w, rs, x, m);
      if ok {
        LeftOnSuccess(w0, w1, rs, x, e, |files|, fault);
        Installed(w0, w1, w, rs, files);
      } else {
        WhenRestored(w0, w1, w, rs, x, m, |files|, e, fault, limit);
      }
    }
  }

  /** The first `offset` bytes have been written; the first of them moved the ctime. */
  ghost predicate Wrote(w0: World, w: World, d: nat, encoded: Bytes, offset: nat) {
    && offset <= |encoded| && Sane(w) && w.names == w0.names && w.open == w0.open && w.clock >= w0.clock
    && d in w.open && w.open[d] in w.files && w.open[d] in w0.files
    && w.files == w0.files[w.open[d] := w.files[w.open[d]]]
    && w.files[w.open[d]].bytes == encoded[..offset]
    && (if offset == 0 then w.files == w0.files else w.files[w.open[d]].ctime > w0.files[w.open[d]].ctime)
  }

  /** What the write loop knows after `step` writes. */
  ghost predicate Writes(encoded: Bytes, point: Point, accept: nat -> nat, at: nat, step: nat, ok: bool) {
    && at <= |encoded| && (at == 0 <==> step == 0)
    && ((ok && Accepted(|encoded| - at, step, point, accept)) <==> Accepted(|encoded|, 0, point, accept))
    && (at > 0 ==> WritesAny(encoded, point, accept))
    && (at == 0 && !ok ==> !WritesAny(encoded, point, accept))
  }

  lemma WriteStarts(encoded: Bytes, point: Point, accept: nat -> nat)
    ensures Writes(encoded, point, accept, 0, 0, true)
  {
  }

  lemma WriteGoesOn(encoded: Bytes, point: Point, accept: nat -> nat, at: nat, step: nat, written: nat)
    requires Writes(encoded, point, accept, at, step, true) && at < |encoded|
    requires written == if accept(step) <= |encoded| - at then accept(step) else |encoded| - at
    ensures if point == AtWrite(step) || written == 0 then Writes(encoded, point, accept, at, step, false)
            else Writes(encoded, point, accept, at + written, step + 1, true)
  {
    assert Accepted(|encoded| - at, step, point, accept)
      <==> point != AtWrite(step) && written != 0 && Accepted(|encoded| - at - written, step + 1, point, accept);
    hide Accepted;
  }

  lemma WriteEnds(encoded: Bytes, point: Point, accept: nat -> nat, at: nat, step: nat, ok: bool)
    requires Writes(encoded, point, accept, at, step, ok) && (at == |encoded| || !ok)
    ensures ok ==> at == |encoded|
    ensures ok <==> Accepted(|encoded|, 0, point, accept)
    ensures at > 0 <==> WritesAny(encoded, point, accept)
  {
  }

  lemma NothingWritten(w: World, d: nat, encoded: Bytes)
    requires Sane(w) && d in w.open && w.files[w.open[d]].bytes == []
    ensures Wrote(w, w, d, encoded, 0)
  {
  }

  lemma WriteMore(w0: World, w: World, d: nat, encoded: Bytes, offset: nat, n: nat)
    requires Sane(w0) && Wrote(w0, w, d, encoded, offset) && 0 < n && offset + n <= |encoded|
    ensures d in w.open && w.open[d] in w.files
    ensures Wrote(w0, Append(w, d, encoded[offset..offset + n]), d, encoded, offset + n)
  {
    assert encoded[..offset] + encoded[offset..offset + n] == encoded[..offset + n];
  }

  lemma NewPath(before: World, during: World, path: string, i: nat, d: nat, copy: nat)
    requires Writing(before, during, path, i, d, copy)
    ensures path !in before.names
  {
  }

  lemma WroteOn(before: World, start: World, during: World, path: string, i: nat, d: nat, copy: nat, encoded: Bytes,
                offset: nat)
    requires Writing(before, start, path, i, d, copy) && start.files[i] == File([], before.clock + 1)
    requires d in start.open && start.open[d] == i && Wrote(start, during, d, encoded, offset)
    ensures Writing(before, during, path, i, d, copy) && Sane(during) && i in during.files && d in during.open
    ensures offset <= |encoded| && Touched(before, during, i) && during.files[i].bytes == encoded[..offset]
    ensures during.files[i].bytes == [] <==> offset == 0
    ensures offset == 0 ==> during.files[i].ctime == before.clock + 1
  {
    hide Sane;
    KeepsWriting(before, start, during, path, i, d, copy);
  }

  lemma CreatedOne(before: World, path: string, i: nat, d: nat)
    requires Sane(before) && path !in before.names && i !in before.files && d !in before.open
    ensures d in Create(before, path, i, d).open && Sane(Create(before, path, i, d))
    ensures Stranded(before, Create(before, path, i, d), path, {d})
    ensures Sane(Close(Create(before, path, i, d), d))
      && Stranded(before, Close(Create(before, path, i, d), d), path, {})
  {
    AbandonWriting(before, path, i, d);
    hide Sane, Close;
    StrandedBy(before, Create(before, path, i, d), path, i, {d});
    StrandedBy(before, Close(Create(before, path, i, d), d), path, i, {});
  }

  lemma Doubled(before: World, during: World, path: string, i: nat, d: nat, copy: nat)
    requires Writing(before, during, path, i, d, copy) && during.files[i] == File([], before.clock + 1)
    ensures d in during.open && Stranded(before, during, path, {d, copy})
    ensures Sane(Close(during, d)) && Stranded(before, Close(during, d), path, {copy})
  {
    FinishWriting(before, during, path, i, d, copy);
    hide Sane, Close;
    StrandedBy(before, during, path, i, {d, copy});
    StrandedBy(before, Close(during, d), path, i, {copy});
  }

  // ----- Where an installation ends -----

  /** The file at which it ends and what became of it; past the last file on success. */
  datatype End = End(index: nat, outcome: Outcome)

  function EndOf(taken: set<string>, files: seq<(string, Bytes)>, fault: nat -> Fault, accept: nat -> nat -> nat,
                 stepFails: nat -> bool, k: nat): (e: End)
    requires k <= |files|
    ensures k <= e.index <= |files|
    decreases |files| - k
  {
    if k == |files| then End(k, Finished)
    else
      var o := OutcomeOf(taken, files[k].0, files[k].1, fault(k), accept(k));
      if o != Finished || stepFails(k) then End(k, o)
      else EndOf(taken + {files[k].0}, files, fault, accept, stepFails, k + 1)
  }

  /** How many records there are by then. */
  function RecordsAt(e: End, n: nat): nat {
    if e.index >= n || e.outcome == Untouched || e.outcome == Unrecorded then e.index else e.index + 1
  }

  /**
   A failed run leaves the names as they were: nothing exists outside the records, no record is stale, and rollback
   gets through all of them.
   */
  predicate Recoverable(e: End, limit: Option<nat>) {
    && e.outcome != Unrecorded && e.outcome != Stale
    && (limit.Some? ==> limit.value >= if e.outcome == Untouched then e.index else e.index + 1)
  }

  /** Names, inodes and descriptors of this run that no record speaks of. */
  datatype Extra = Extra(names: set<string>, files: set<nat>, open: set<nat>)

  /** `w` is `w0` with exactly the recorded files, names and descriptors and the extra ones added. */
  ghost predicate Adds(w0: World, w: World, rs: seq<Record>, x: Extra) {
    && Grows(w0.names, w.names, Paths(rs) + x.names) && Paths(rs) !! x.names
    && Grows(w0.files, w.files, Inodes(rs) + x.files)
    && Grows(w0.open, w.open, Handles(rs) + x.open) && Handles(rs) !! x.open
  }

  ghost predicate AllOwn(w: World, rs: seq<Record>) {
    forall i :: 0 <= i < |rs| ==> Own(w, rs[i])
  }

  ghost predicate AllHeld(rs: seq<Record>) {
    forall i :: 0 <= i < |rs| ==> rs[i].handle.Some?
  }

  /** What the install loop leaves, by where it ended. */
  ghost predicate Left(w0: World, w: World, rs: seq<Record>, x: Extra, e: End, n: nat, fault: nat -> Fault) {
    && Tracked(w, rs) && AllHeld(rs) && Adds(w0, w, rs, x) && |rs| == RecordsAt(e, n)
    && (e.index >= n ==> FirstRefused(w, rs) == |rs| && x == Extra({}, {}, {}))
    && (e.index < n ==>
          && FirstRefused(w, rs) == (if e.outcome == Stale then e.index else |rs|)
          && (x.names == {} <==> e.outcome != Unrecorded)
          && (x.open == {} <==> !Leaks(e.outcome, fault(e.index))))
  }

  function FileNames(files: seq<(string, Bytes)>): set<string> {
    set f | f in files :: f.0
  }

  ghost predicate CreatedFrom(created: seq<Record>, files: seq<(string, Bytes)>) {
    |created| <= |files|
    && forall i :: 0 <= i < |created| ==> created[i].path == files[i].0 && created[i].bytes == files[i].1
  }

  /** How far the removal loop gets. */
  function RemovedUpTo(w: World, rs: seq<Record>, limit: Option<nat>): (k: nat)
    ensures k <= FirstRefused(w, rs) <= |rs|
  {
    if limit.Some? && limit.value < FirstRefused(w, rs) then limit.value else FirstRefused(w, rs)
  }

  /** Every name of `before` still leads to the same inode, and that file is unchanged. */
  ghost predicate Keeps(before: World, after: World) {
    forall p :: p in before.names ==>
      && p in after.names && after.names[p] == before.names[p]
      && (before.names[p] in before.files ==>
            before.names[p] in after.files && after.files[before.names[p]] == before.files[before.names[p]])
  }

  /** The first k files are finished and everything else is as before. */
  ghost predicate Installing(w0: World, w: World, rs: seq<Record>, e: End, files: seq<(string, Bytes)>,
                             fault: nat -> Fault, accept: nat -> nat -> nat, stepFails: nat -> bool, k: nat)
    requires k <= |files|
  {
    && e == EndOf(w.names.Keys, files, fault, accept, stepFails, k) && |rs| == k
    && Adds(w0, w, rs, Extra({}, {}, {})) && AllOwn(w, rs) && Separate(rs) && CreatedFrom(rs, files)
    && forall i :: 0 <= i < k ==> rs[i].complete
  }

  ghost predicate Ended(w0: World, w: World, rs: seq<Record>, x: Extra, e: End, files: seq<(string, Bytes)>,
                        fault: nat -> Fault)
  {
    e.index < |files| && Separate(rs) && CreatedFrom(rs, files) && Left(w0, w, rs, x, e, |files|, fault)
  }

  // ----- The install loop, one file at a time -----

  lemma NothingAdded(w: World)
    ensures Adds(w, w, [], Extra({}, {}, {})) && Separate([])
  {
    assert Paths([]) == {} && Inodes([]) == {} && Handles([]) == {};
  }

  lemma OwnNeverRefused(w: World, rs: seq<Record>)
    requires AllOwn(w, rs)
    ensures FirstRefused(w, rs) == |rs| && AllHeld(rs)
  {
  }

  lemma LeftNothing(w0: World, w: World, rs: seq<Record>, e: End, n: nat, fault: nat -> Fault)
    requires AllOwn(w, rs) && Separate(rs) && Adds(w0, w, rs, Extra({}, {}, {})) && |rs| == n == e.index
    ensures Left(w0, w, rs, Extra({}, {}, {}), e, n, fault)
  {
    hide Adds, Leaks, FirstRefused;
    OwnNeverRefused(w, rs);
  }

  lemma LeftUntouched(w0: World, w: World, rs: seq<Record>, e: End, n: nat, fault: nat -> Fault)
    requires AllOwn(w, rs) && Separate(rs) && Adds(w0, w, rs, Extra({}, {}, {}))
    requires e.index < n && |rs| == e.index && e.outcome == Untouched
    ensures Left(w0, w, rs, Extra({}, {}, {}), e, n, fault)
  {
    hide Adds, FirstRefused;
    OwnNeverRefused(w, rs);
  }

  /** Earlier records stay good while another file appears. */
  lemma OwnPersists(before: World, after: World, r: Record, path: string, i: nat)
    requires Own(before, r) && path !in before.names && i !in before.files
    requires after.names == before.names[path := i] && i in after.files
      && after.files == before.files[i := after.files[i]]
    requires forall d :: d in before.open ==> d in after.open && after.open[d] == before.open[d]
    ensures Own(after, r) && r.path != path && r.inode != i
  {
  }

  lemma LeftStranded(w0: World, before: World, w: World, rs: seq<Record>, path: string, leaked: set<nat>, x: Extra,
                     e: End, n: nat, fault: nat -> Fault)
    requires AllOwn(before, rs) && Separate(rs) && Adds(w0, before, rs, Extra({}, {}, {}))
    requires Stranded(before, w, path, leaked) && x == Extra({path}, {w.names[path]}, leaked)
    requires e.index < n && |rs| == e.index && e.outcome == Unrecorded
    requires leaked == {} <==> !Leaks(Unrecorded, fault(e.index))
    ensures Left(w0, w, rs, x, e, n, fault)
  {
    hide Leaks, Own, FirstRefused;
    forall i | 0 <= i < |rs| ensures Own(w, rs[i]) { OwnPersists(before, w, rs[i], path, w.names[path]); }
    OwnNeverRefused(w, rs);
    OwnIsTracked(w, rs);
    StrandedAdds(w0, before, w, rs, path, leaked);
  }

  lemma OwnIsTracked(w: World, rs: seq<Record>)
    requires AllOwn(w, rs) && Separate(rs)
    ensures Tracked(w, rs)
  {
  }

  lemma GrowsMore<K, V>(m0: map<K, V>, m: map<K, V>, after: map<K, V>, added: set<K>, more: set<K>)
    requires Grows(m0, m, added) && Grows(m, after, more)
    ensures Grows(m0, after, added + more) && added !! more
  {
  }

  lemma GrowsByOne<K, V>(m: map<K, V>, k: K, v: V)
    requires k !in m
    ensures Grows(m, m[k := v], {k})
  {
  }

  lemma StrandedAdds(w0: World, before: World, w: World, rs: seq<Record>, path: string, leaked: set<nat>)
    requires Adds(w0, before, rs, Extra({}, {}, {})) && Stranded(before, w, path, leaked)
    ensures Adds(w0, w, rs, Extra({path}, {w.names[path]}, leaked))
  {
    hide Grows, Paths, Inodes, Handles;
    var i := w.names[path];
    GrowsByOne(before.names, path, i);
    GrowsByOne(before.files, i, w.files[i]);
    GrowsMore(w0.names, before.names, w.names, Paths(rs) + {}, {path});
    GrowsMore(w0.files, before.files, w.files, Inodes(rs) + {}, {i});
    GrowsMore(w0.open, before.open, w.open, Handles(rs) + {}, leaked);
    assert Paths(rs) + {} == Paths(rs) && Inodes(rs) + {} == Inodes(rs) && Handles(rs) + {} == Handles(rs);
  }

  lemma PublishedFacts(before: World, after: World, path: string, encoded: Bytes, r: Record, o: Outcome,
                       leaked: set<nat>)
    requires Published(before, after, path, encoded, r, o, leaked)
    ensures r.handle.Some? && r.path == path && r.bytes == encoded && path !in before.names && r.inode !in before.files
    ensures Held(after, r) && (Matches(after, r) <==> o != Stale) && (r.complete <==> o == Finished)
    ensures after.names == before.names[path := r.inode]
    ensures r.inode in after.files && after.files == before.files[r.inode := after.files[r.inode]]
    ensures Grows(before.open, after.open, leaked + {r.handle.value}) && r.handle.value !in leaked
    ensures r.handle.value !in before.open
    ensures forall d :: d in before.open ==> d in after.open && after.open[d] == before.open[d]
  {
    hide Matches;
  }

  lemma AddRecord(w0: World, before: World, w: World, path: string, encoded: Bytes, rs: seq<Record>, latest: Record,
                  o: Outcome, leaked: set<nat>)
    requires AllOwn(before, rs) && Separate(rs) && Adds(w0, before, rs, Extra({}, {}, {}))
    requires Published(before, w, path, encoded, latest, o, leaked)
    ensures AllOwn(w, rs) && Tracked(w, rs + [latest]) && AllHeld(rs + [latest])
    ensures Adds(w0, w, rs + [latest], Extra({}, {}, leaked))
    ensures latest.path == path && latest.bytes == encoded && (latest.complete <==> o == Finished)
    ensures o != Stale ==> AllOwn(w, rs + [latest])
    ensures w.names.Keys == before.names.Keys + {path}
  {
    hide Published, Own, Adds;
    PublishedFacts(before, w, path, encoded, latest, o, leaked);
    forall i | 0 <= i < |rs|
      ensures Own(w, rs[i]) && rs[i].handle.Some?
      ensures rs[i].path != path && rs[i].inode != latest.inode && rs[i].handle != latest.handle
    {
      OwnPersists(before, w, rs[i], path, latest.inode);
      OwnFacts(before, rs[i]);
    }
    OwnFromParts(w, latest);
    RecordAdds(w0, before, w, rs, latest, path, leaked);
    ExtendTracked(w, rs, latest);
  }

  lemma OwnFacts(w: World, r: Record)
    requires Own(w, r)
    ensures r.handle.Some? && r.handle.value in w.open && Held(w, r)
  {
  }

  lemma OwnFromParts(w: World, r: Record)
    requires Held(w, r)
    ensures Matches(w, r) ==> Own(w, r)
  {
  }

  lemma ExtendTracked(w: World, rs: seq<Record>, latest: Record)
    requires AllOwn(w, rs) && Separate(rs) && Held(w, latest)
    requires forall i :: 0 <= i < |rs| ==>
      rs[i].path != latest.path && rs[i].inode != latest.inode && rs[i].handle != latest.handle
    ensures Tracked(w, rs + [latest])
  {
    hide Matches;
  }

  lemma RecordAdds(w0: World, before: World, w: World, rs: seq<Record>, latest: Record, path: string, leaked: set<nat>)
    requires Adds(w0, before, rs, Extra({}, {}, {})) && latest.handle.Some? && latest.path == path
    requires path !in before.names && w.names == before.names[path := latest.inode]
    requires latest.inode !in before.files && latest.inode in w.files
    requires w.files == before.files[latest.inode := w.files[latest.inode]]
    requires Grows(before.open, w.open, leaked + {latest.handle.value}) && latest.handle.value !in leaked
    ensures Adds(w0, w, rs + [latest], Extra({}, {}, leaked))
  {
    hide Grows, Paths, Inodes, Handles;
    var h := latest.handle.value;
    assert Paths(rs) + {} == Paths(rs) && Inodes(rs) + {} == Inodes(rs) && Handles(rs) + {} == Handles(rs);
    AnotherRecord(rs, latest);
    GrowsByOne(before.names, path, latest.inode);
    GrowsByOne(before.files, latest.inode, w.files[latest.inode]);
    GrowsMore(w0.names, before.names, w.names, Paths(rs), {path});
    GrowsMore(w0.files, before.files, w.files, Inodes(rs), {latest.inode});
    GrowsMore(w0.open, before.open, w.open, Handles(rs), leaked + {h});
    assert Handles(rs) + (leaked + {h}) == (Handles(rs) + {h}) + leaked;
    assert Paths(rs) + {path} + {} == Paths(rs) + {path};
    assert Inodes(rs) + {latest.inode} + {} == Inodes(rs) + {latest.inode};
  }

  lemma LeftRecorded(w0: World, before: World, w: World, path: string, encoded: Bytes, rs: seq<Record>, latest: Record,
                     o: Outcome, leaked: set<nat>, x: Extra, e: End, n: nat, fault: nat -> Fault)
    requires AllOwn(w, rs) && Tracked(w, rs + [latest]) && AllHeld(rs + [latest])
    requires Adds(w0, w, rs + [latest], x) && x == Extra({}, {}, leaked)
    requires Published(before, w, path, encoded, latest, o, leaked)
    requires e.index < n && |rs| == e.index && e.outcome == o && o != Untouched && o != Unrecorded
    requires leaked == {} <==> !Leaks(o, fault(e.index))
    ensures Left(w0, w, rs + [latest], x, e, n, fault)
  {
    hide Published, Own, Adds, Leaks, FirstRefused, Tracked;
    PublishedFacts(before, w, path, encoded, latest, o, leaked);
    RefusedLast(w, rs, latest);
  }

  lemma {:induction false} RefusedLast(w: World, rs: seq<Record>, latest: Record)
    requires AllOwn(w, rs)
    ensures FirstRefused(w, rs + [latest]) == if Matches(w, latest) then |rs| + 1 else |rs|
  {
    hide Matches;
    if rs != [] {
      assert Own(w, rs[0]);
      RefusedLast(w, rs[1..], latest);
      assert (rs + [latest])[1..] == rs[1..] + [latest];
    }
  }

  lemma StartInstalling(w: World, rs: seq<Record>, files: seq<(string, Bytes)>, fault: nat -> Fault,
                        accept: nat -> nat -> nat, stepFails: nat -> bool)
    requires rs == []
    ensures Separate(rs)
    ensures Installing(w, w, rs, EndOf(w.names.Keys, files, fault, accept, stepFails, 0), files, fault, accept,
                       stepFails, 0)
  {
    hide EndOf;
    NothingAdded(w);
  }

  lemma EndsUntouched(w0: World, w: World, rs: seq<Record>, e: End, files: seq<(string, Bytes)>,
                      fault: nat -> Fault, accept: nat -> nat -> nat, stepFails: nat -> bool, k: nat)
    requires k < |files| && Installing(w0, w, rs, e, files, fault, accept, stepFails, k)
    requires OutcomeOf(w.names.Keys, files[k].0, files[k].1, fault(k), accept(k)) == Untouched
    ensures Ended(w0, w, rs, Extra({}, {}, {}), e, files, fault)
  {
    hide Adds, AllOwn, OutcomeOf, Left;
    LeftUntouched(w0, w, rs, e, |files|, fault);
  }

  lemma EndsStranded(w0: World, before: World, w: World, rs: seq<Record>, x: Extra, leaked: set<nat>, e: End,
                     files: seq<(string, Bytes)>, fault: nat -> Fault, accept: nat -> nat -> nat,
                     stepFails: nat -> bool, k: nat)
    requires k < |files| && Installing(w0, before, rs, e, files, fault, accept, stepFails, k)
    requires OutcomeOf(before.names.Keys, files[k].0, files[k].1, fault(k), accept(k)) == Unrecorded
    requires Stranded(before, w, files[k].0, leaked) && files[k].0 in w.names
    requires x == Extra({files[k].0}, {w.names[files[k].0]}, leaked) && (leaked == {} <==> !Leaks(Unrecorded, fault(k)))
    ensures Ended(w0, w, rs, x, e, files, fault)
  {
    hide Adds, AllOwn, OutcomeOf, Left, Stranded, Leaks;
    LeftStranded(w0, before, w, rs, files[k].0, leaked, x, e, |files|, fault);
  }

  lemma RecordedOnce(w0: World, before: World, w: World, rs: seq<Record>, latest: Record, o: Outcome, leaked: set<nat>,
                     e: End, files: seq<(string, Bytes)>, fault: nat -> Fault, accept: nat -> nat -> nat,
                     stepFails: nat -> bool, k: nat)
    requires k < |files| && Installing(w0, before, rs, e, files, fault, accept, stepFails, k)
    requires Published(before, w, files[k].0, files[k].1, latest, o, leaked)
    ensures |rs| == k && AllOwn(w, rs) && Tracked(w, rs + [latest]) && AllHeld(rs + [latest])
    ensures Adds(w0, w, rs + [latest], Extra({}, {}, leaked)) && (o != Stale ==> AllOwn(w, rs + [latest]))
    ensures Separate(rs + [latest]) && CreatedFrom(rs + [latest], files)
    ensures w.names.Keys == before.names.Keys + {files[k].0}
    ensures forall i :: 0 <= i < k ==> rs[i].complete
    ensures latest.complete <==> o == Finished
  {
    hide Adds, AllOwn, EndOf, Published, Held;
    AddRecord(w0, before, w, files[k].0, files[k].1, rs, latest, o, leaked);
  }

  lemma EndsRecorded(w0: World, before: World, w: World, rs: seq<Record>, latest: Record, o: Outcome, leaked: set<nat>,
                     x: Extra, e: End, files: seq<(string, Bytes)>, fault: nat -> Fault, accept: nat -> nat -> nat,
                     stepFails: nat -> bool, k: nat)
    requires k < |files| && Installing(w0, before, rs, e, files, fault, accept, stepFails, k)
    requires o == OutcomeOf(before.names.Keys, files[k].0, files[k].1, fault(k), accept(k))
    requires o != Untouched && o != Unrecorded && (o != Finished || stepFails(k))
    requires Published(before, w, files[k].0, files[k].1, latest, o, leaked)
    requires x == Extra({}, {}, leaked) && (leaked == {} <==> !Leaks(o, fault(k)))
    ensures Ended(w0, w, rs + [latest], x, e, files, fault) && Separate(rs + [latest])
  {
    hide Adds, AllOwn, OutcomeOf, Left, Published, Leaks, CreatedFrom, Separate, Tracked, AllHeld;
    RecordedOnce(w0, before, w, rs, latest, o, leaked, e, files, fault, accept, stepFails, k);
    LeftRecorded(w0, before, w, files[k].0, files[k].1, rs, latest, o, leaked, x, e, |files|, fault);
  }

  lemma GoesOn(w0: World, before: World, w: World, rs: seq<Record>, latest: Record, leaked: set<nat>, e: End,
               files: seq<(string, Bytes)>, fault: nat -> Fault, accept: nat -> nat -> nat, stepFails: nat -> bool,
               k: nat)
    requires k < |files| && Installing(w0, before, rs, e, files, fault, accept, stepFails, k) && !stepFails(k)
    requires OutcomeOf(before.names.Keys, files[k].0, files[k].1, fault(k), accept(k)) == Finished
    requires Published(before, w, files[k].0, files[k].1, latest, Finished, leaked)
    requires leaked == {} <==> !Leaks(Finished, fault(k))
    ensures Installing(w0, w, rs + [latest], e, files, fault, accept, stepFails, k + 1) && Separate(rs + [latest])
  {
    hide Adds, AllOwn, Published, CreatedFrom, Separate, Tracked, AllHeld, Accepted, WritesAny;
    RecordedOnce(w0, before, w, rs, latest, Finished, leaked, e, files, fault, accept, stepFails, k);
    assert leaked == {};
  }

  lemma EndsWell(w0: World, w: World, rs: seq<Record>, e: End, files: seq<(string, Bytes)>,
                 fault: nat -> Fault, accept: nat -> nat -> nat, stepFails: nat -> bool)
    requires Installing(w0, w, rs, e, files, fault, accept, stepFails, |files|)
    ensures e.index == |files| && Left(w0, w, rs, Extra({}, {}, {}), e, |files|, fault)
    ensures CreatedFrom(rs, files) && AllOwn(w, rs) && forall i :: 0 <= i < |rs| ==> rs[i].complete
    ensures |rs| == |files|
  {
    hide Adds, AllOwn, Left, Separate;
    LeftNothing(w0, w, rs, e, |files|, fault);
  }

  lemma EndsBadly(w0: World, w: World, rs: seq<Record>, x: Extra, e: End, files: seq<(string, Bytes)>,
                  fault: nat -> Fault)
    requires Ended(w0, w, rs, x, e, files, fault)
    ensures e.index < |files| && Left(w0, w, rs, x, e, |files|, fault) && CreatedFrom(rs, files)
  {
    hide Left, CreatedFrom, Separate;
  }

  lemma AdoptedApart(before: World, rs: seq<Record>, path: string, i: nat, copy: nat)
    requires Tracked(before, rs) && AllHeld(rs) && path !in Paths(rs) && i !in Inodes(rs) && copy !in before.open
    ensures forall r: Record :: r.path == path && r.inode == i && r.handle == Some(copy) ==>
      Tracked(before.(open := before.open[copy := i]), rs + [r])
  {
    forall k | 0 <= k < |rs| ensures rs[k].path != path && rs[k].inode != i && rs[k].handle != Some(copy) {
      assert rs[k] in rs && Held(before, rs[k]);
    }
  }

  // ----- After rollback and closing -----

  lemma LeftTracked(w0: World, w: World, rs: seq<Record>, x: Extra, e: End, n: nat, fault: nat -> Fault)
    requires Left(w0, w, rs, x, e, n, fault)
    ensures Tracked(w, rs) && AllHeld(rs) && Adds(w0, w, rs, x)
  {
  }

  lemma StillTracked(before: World, after: World, rs: seq<Record>, now: seq<Record>, m: nat)
    requires Tracked(before, rs) && |now| == |rs| && m <= |rs|
    requires forall i :: 0 <= i < m ==> now[i] == Dropped(rs[i])
    requires forall i :: m <= i < |rs| ==> now[i] == rs[i] && Held(after, now[i])
    ensures Tracked(after, now)
    ensures Handles(rs[..m]) + Handles(now) == Handles(rs)
  {
    assert Tracked(after, now);
    assert rs == rs[..m] + rs[m..];
    forall h ensures h in Handles(rs[..m]) + Handles(now) <==> h in Handles(rs) {
      if h in Handles(now) {
        var i :| 0 <= i < |now| && now[i].handle == Some(h);
        assert rs[i] in rs;
      }
      if h in Handles(rs) {
        var i :| 0 <= i < |rs| && rs[i].handle == Some(h);
        if i < m { assert rs[..m][i] == rs[i]; } else { assert now[i] in now; }
      }
    }
  }

  lemma NothingRemoved(w: World, rs: seq<Record>)
    ensures w.names - Paths(rs[..0]) == w.names && w.open - Handles(rs[..0]) == w.open
    ensures Handles(rs[..0]) + Handles(rs) == Handles(rs)
  {
  }

  lemma AllClosed(w1: World, w2: World, w: World, rs: seq<Record>, now: seq<Record>, m: nat)
    requires m <= |rs| && w2.open == w1.open - Handles(rs[..m]) && w.open == w2.open - Handles(now)
    requires Handles(rs[..m]) + Handles(now) == Handles(rs)
    ensures w.open == w1.open - Handles(rs)
  {
    hide Handles;
  }

  /** Whatever the run did, the files that were there before still are, unchanged and under their names. */
  lemma AfterAll(w0: World, w1: World, w: World, rs: seq<Record>, x: Extra, m: nat)
    requires Sane(w0) && Sane(w) && Adds(w0, w1, rs, x) && m <= |rs|
    requires w.names == w1.names - Paths(rs[..m]) && w.open == w1.open - Handles(rs)
    requires forall i :: i in w.files ==> i in w1.files && w.files[i] == w1.files[i]
    ensures Keeps(w0, w)
    ensures forall d :: d in w0.open ==> d in w.open && w.open[d] == w0.open[d]
    ensures forall i :: i in w0.files ==> i in w.files && w.files[i] == w0.files[i]
    ensures w.open == w0.open <==> x.open == {}
  {
    hide Sane, Grows, Paths, Handles, Inodes, Keeps;
    PathsOfPrefix(rs, m);
    Remains(w0.names, w1.names, Paths(rs), x.names, Paths(rs[..m]));
    Remains(w0.open, w1.open, Handles(rs), x.open, Handles(rs));
    BackToOpen(w0.open, w1.open, Handles(rs), x.open);
    FilesRemain(w0, w);
    GrownFiles(w0, w1, w, Inodes(rs) + x.files);
    KeepsAll(w0, w);
  }

  lemma Remains<K, V>(m0: map<K, V>, m: map<K, V>, added: set<K>, more: set<K>, gone: set<K>)
    requires Grows(m0, m, added + more) && gone <= added
    ensures forall k :: k in m0 ==> k in m - gone && (m - gone)[k] == m0[k]
  {
  }

  lemma BackToOpen<K, V>(m0: map<K, V>, m: map<K, V>, added: set<K>, more: set<K>)
    requires Grows(m0, m, added + more) && added !! more
    ensures m - added == m0 <==> more == {}
  {
    assert (m - added).Keys == m0.Keys + more;
  }

  lemma FilesRemain(w0: World, w: World)
    requires Sane(w0) && Sane(w)
    requires forall p :: p in w0.names ==> p in w.names && w.names[p] == w0.names[p]
    requires forall d :: d in w0.open ==> d in w.open && w.open[d] == w0.open[d]
    ensures forall i :: i in w0.files ==> i in w.files
  {
    forall i | i in w0.files ensures i in w.files {
      if i in w0.names.Values {
        var p :| p in w0.names && w0.names[p] == i;
        assert p in w.names;
      } else {
        var d :| d in w0.open && w0.open[d] == i;
        assert d in w.open;
      }
    }
  }

  lemma GrownFiles(w0: World, w1: World, w: World, added: set<nat>)
    requires Grows(w0.files, w1.files, added) && forall i :: i in w0.files ==> i in w.files
    requires forall i :: i in w.files ==> i in w1.files && w.files[i] == w1.files[i]
    ensures forall i :: i in w0.files ==> i in w.files && w.files[i] == w0.files[i]
  {
  }

  lemma KeepsAll(w0: World, w: World)
    requires forall p :: p in w0.names ==> p in w.names && w.names[p] == w0.names[p]
    requires forall i :: i in w0.files ==> i in w.files && w.files[i] == w0.files[i]
    ensures Keeps(w0, w)
  {
  }

  lemma PathsOfPrefix(rs: seq<Record>, m: nat)
    requires m <= |rs|
    ensures Paths(rs[..m]) <= Paths(rs)
    ensures Separate(rs) && m < |rs| ==> rs[m].path in Paths(rs) && rs[m].path !in Paths(rs[..m])
    ensures m == |rs| ==> rs[..m] == rs
  {
  }

  lemma WhenRestored(w0: World, w1: World, w: World, rs: seq<Record>, x: Extra, m: nat, n: nat, e: End,
                     fault: nat -> Fault, limit: Option<nat>)
    requires Left(w0, w1, rs, x, e, n, fault) && e.index < n && m == RemovedUpTo(w1, rs, limit)
    requires Sane(w0) && Sane(w) && Keeps(w0, w)
    requires w.names == w1.names - Paths(rs[..m]) && (w.open == w0.open <==> x.open == {})
    requires forall i :: i in w.files ==> i in w1.files && w.files[i] == w1.files[i]
    requires forall i :: i in w0.files ==> i in w.files && w.files[i] == w0.files[i]
    ensures w.names == w0.names <==> Recoverable(e, limit)
    ensures w.open == w0.open <==> !Leaks(e.outcome, fault(e.index))
    ensures w.names == w0.names && w.open == w0.open ==> w.files == w0.files
  {
    hide Leaks, FirstRefused, Sane;
    PathsOfPrefix(rs, m);
    assert m == |rs| && x.names == {} <==> Recoverable(e, limit);
    NamesBack(w0, w1, w, rs, x, m);
    if w.names == w0.names && w.open == w0.open { FilesBack(w0, w); }
  }

  lemma NamesBack(w0: World, w1: World, w: World, rs: seq<Record>, x: Extra, m: nat)
    requires Grows(w0.names, w1.names, Paths(rs) + x.names) && Paths(rs) !! x.names && Separate(rs) && m <= |rs|
    requires w.names == w1.names - Paths(rs[..m])
    ensures w.names == w0.names <==> m == |rs| && x.names == {}
  {
    PathsOfPrefix(rs, m);
    assert w.names.Keys == (w0.names.Keys + Paths(rs) + x.names) - Paths(rs[..m]);
    if m < |rs| { assert rs[m].path in w.names; }
    if x.names != {} { ExtraNameStays(w0, w, Paths(rs), Paths(rs[..m]), x.names); }
  }

  lemma ExtraNameStays(w0: World, w: World, all: set<string>, gone: set<string>, more: set<string>)
    requires more != {} && gone <= all && all !! more && more !! w0.names.Keys
    requires w.names.Keys == (w0.names.Keys + all + more) - gone
    ensures w.names.Keys != w0.names.Keys
  {
    var p :| p in more;
    assert p in w.names.Keys;
  }

  lemma FilesBack(w0: World, w: World)
    requires Sane(w0) && Sane(w) && w.names == w0.names && w.open == w0.open
    requires forall i :: i in w0.files ==> i in w.files && w.files[i] == w0.files[i]
    ensures w.files == w0.files
  {
    forall i | i in w.files ensures i in w0.files {
      if i in w.names.Values { var p :| p in w.names && w.names[p] == i; }
      else { var d :| d in w.open && w.open[d] == i; }
    }
  }

  lemma LeftOnSuccess(w0: World, w: World, rs: seq<Record>, x: Extra, e: End, n: nat, fault: nat -> Fault)
    requires Left(w0, w, rs, x, e, n, fault) && e.index == n
    ensures Adds(w0, w, rs, Extra({}, {}, {})) && |rs| == n && x.open == {}
  {
    hide Adds, FirstRefused;
  }

  lemma Installed(w0: World, w: World, after: World, rs: seq<Record>, files: seq<(string, Bytes)>)
    requires Adds(w0, w, rs, Extra({}, {}, {})) && AllOwn(w, rs) && CreatedFrom(rs, files) && |rs| == |files|
    requires forall i :: 0 <= i < |rs| ==> rs[i].complete
    requires after.names == w.names && Sane(after)
    requires forall i :: i in after.files ==> i in w.files && after.files[i] == w.files[i]
    ensures after.names.Keys == w0.names.Keys + FileNames(files)
    ensures forall f :: f in files ==>
      f.0 !in w0.names && f.0 in after.names && after.names[f.0] in after.files
        && after.files[after.names[f.0]].bytes == f.1
  {
    forall p ensures p in Paths(rs) <==> p in FileNames(files) {
      if p in Paths(rs) { var i :| 0 <= i < |rs| && rs[i].path == p; assert files[i] in files && files[i].0 == p; }
      if p in FileNames(files) { var i :| 0 <= i < |files| && files[i].0 == p; assert rs[i] in rs; }
    }
    forall f | f in files
      ensures f.0 !in w0.names && f.0 in after.names && after.names[f.0] in after.files
              && after.files[after.names[f.0]].bytes == f.1
    {
      var i :| 0 <= i < |files| && files[i] == f;
      assert Own(w, rs[i]) && rs[i] in rs;
      assert f.0 in Paths(rs);
    }
  }

  // ----- Runs that do not come back -----

  /** The lowest free number from k on, as descriptors are assigned. */
  function LowestFree(s: set<nat>, k: nat): (n: nat)
    ensures n >= k && n !in s
    decreases |s|
  {
    if k in s then LowestFree(s - {k}, k + 1) else k
  }

  /** One installation of a single file with one byte, into an empty file system. */
  method RunOne(fault: Fault, limit: Option<nat>) returns (ok: bool, after: World)
    ensures var e := EndOf({}, [("a", [7 as bv8])], k => fault, k => n => 1, k => true, 0);
      !ok && e.index == 0 && (after.names == map[] <==> Recoverable(e, limit))
  {
    var installer := new Installer(World(map[], map[], map[], 0), s => LowestFree(s, 0));
    ok := installer.Run([("a", [7])], k => fault, k => n => 1, k => true, limit);
    after := installer.w;
  }

  /**
   Each kind of failing end is reached: an interrupt on entering the `finally` block after a write, one between
   creation and publication, and a rollback that fails while it stops the services.
   */
  method NamesThatStay() returns (stale: World, stranded: World, unserved: World)
    ensures stale.names != map[] && stranded.names != map[] && unserved.names != map[]
  {
    var ok;
    ok, stale := RunOne(Fault(Never, BeforeRefresh), None);
    ok, stranded := RunOne(Fault(AfterOpen, Through), None);
    ok, unserved := RunOne(Fault(AtCheck, Through), Some(0));
  }

  lemma ChangedFile(w: World, rs: seq<Record>, changed: World)
    requires Sane(w) && Tracked(w, rs) && |rs| == 2 && FirstRefused(w, rs) == 2
    requires changed == w.(files := w.files[rs[0].inode := File([9], w.clock + 1)], clock := w.clock + 1)
    ensures AllOwn(w, rs) && Interferes(w, changed, rs) && Tracked(changed, rs) && Sane(changed)
    ensures rs[1].path in changed.names && Own(changed, rs[1]) && RemovedUpTo(changed, rs, None) == 0
  {
    assert Matches(w, rs[0]) && Matches(w, rs[1]);
    assert changed.files[rs[0].inode].ctime != rs[0].ctime;
  }

  /**
   A run of two files whose last step fails, and then a foreign edit of the first file: rollback leaves the second
   one in place, though this run still owns it.
   */
  method RollbackCanLeaveOwnFiles() returns (installed: World, changed: World, after: World, rs: seq<Record>)
    ensures |rs| == 2 && AllOwn(installed, rs) && Interferes(installed, changed, rs)
    ensures Own(changed, rs[1]) && after.names == changed.names && rs[1].path in after.names
  {
    hide Left, Adds, AllOwn, Tracked, Interferes, FirstRefused, Own, CreatedFrom, EndOf, Sane, Separate;
    NothingSane();
    var installer := new Installer(World(map[], map[], map[], 0), s => LowestFree(s, 0));
    var files: seq<(string, Bytes)> := [("a", [7]), ("b", [8])];
    var fault, accept, stepFails := (k: nat) => Fault(Never, Through), (k: nat) => (n: nat) => 1, (k: nat) => k == 1;
    assert installer.w.names.Keys == {};
    var ok, x := installer.Install(files, fault, accept, stepFails);
    EndOfTwo(files, fault, accept, stepFails);
    installed, rs := installer.w, installer.created;
    LeftTwo(World(map[], map[], map[], 0), installed, rs, x, fault);
    changed := installed.(files := installed.files[rs[0].inode := File([9], installed.clock + 1)],
                          clock := installed.clock + 1);
    ChangedFile(installed, rs, changed);
    installer.w := changed;
    var removed := installer.RemoveCreated(None);
    after := installer.w;
    assert Paths(rs[..0]) == {};
  }

  lemma NothingSane()
    ensures Sane(World(map[], map[], map[], 0))
  {
  }

  lemma LeftTwo(w0: World, w: World, rs: seq<Record>, x: Extra, fault: nat -> Fault)
    requires Left(w0, w, rs, x, End(1, Finished), 2, fault)
    ensures |rs| == 2 && Tracked(w, rs) && FirstRefused(w, rs) == 2 && rs[0].inode in w.files
  {
    hide Adds, Tracked, Leaks;
    assert Matches(w, rs[0]);
  }

  lemma EndOfTwo(files: seq<(string, Bytes)>, fault: nat -> Fault, accept: nat -> nat -> nat, stepFails: nat -> bool)
    requires files == [("a", [7]), ("b", [8])] && !stepFails(0) && stepFails(1)
    requires forall k: nat :: fault(k) == Fault(Never, Through) && forall n: nat :: accept(k)(n) == 1
    ensures EndOf({}, files, fault, accept, stepFails, 0) == End(1, Finished)
  {
    assert Accepted(1, 0, Never, accept(0)) && Accepted(1, 0, Never, accept(1));
  }
}
