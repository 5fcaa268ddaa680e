/** Labelled datasets and the leak scan of `validate_dataset`. */
module Dataset {
  import opened Outcomes
  import opened Contracts

  datatype Split = Train | Development | CalibrationSplit | Holdout

  datatype Origin = Real | Synthetic

  datatype Provenance = Provenance(origin: Origin, sourceId: string, reference: string)

  /** One reviewer's label as it is stored with a case. */
  datatype ReviewRecord = ReviewRecord(
    reviewerId: string, reviewedAt: string, caseId: string, input: Digest, expectedOptionId: string, rationale: string)

  datatype ReviewStatus = Agreed | Adjudicated

  datatype Review = Review(status: ReviewStatus, records: seq<ReviewRecord>)

  datatype Case = Case(
    id: string, family: string, groupId: string, labelSource: string, split: Split, expectedOptionId: string,
    request: RawRequest, provenance: Option<Provenance>, review: Option<Review>)

  predicate IsOptionOf(q: Request, id: string) {
    exists i :: 0 <= i < |q.options| && q.options[i].id == id
  }

  predicate GoodProvenance(p: Provenance) {
    GoodIdentifier(p.sourceId, 100) && GoodString(p.reference, 1000)
  }

  /** The checks made on one case by itself. */
  predicate GoodCase(c: Case) {
    && GoodIdentifier(c.id, 100) && GoodIdentifier(c.family, 100) && GoodIdentifier(c.groupId, 100)
    && GoodIdentifier(c.labelSource, 100) && GoodIdentifier(c.expectedOptionId, 100)
    && Parse(c.request).Success? && Parse(c.request).value.id == c.id
    && IsOptionOf(Parse(c.request).value, c.expectedOptionId)
    && (c.provenance.Some? ==> GoodProvenance(c.provenance.value))
  }

  /** Two cases a model could have seen the same material in. */
  predicate Related(normal: string -> string, c: Case, d: Case) {
    || c.groupId == d.groupId
    || normal(c.request.state) == normal(d.request.state)
    || (c.provenance.Some? && d.provenance.Some? && c.provenance.value.sourceId == d.provenance.value.sourceId)
  }

  ghost predicate NoLeak(normal: string -> string, cases: seq<Case>) {
    forall i, j :: 0 <= i < |cases| && 0 <= j < |cases| && Related(normal, cases[i], cases[j])
      ==> cases[i].split == cases[j].split
  }

  ghost predicate DistinctCases(cases: seq<Case>) {
    forall i, j :: 0 <= i < j < |cases| ==> cases[i].id != cases[j].id
  }

  ghost predicate ValidDataset(normal: string -> string, cases: seq<Case>) {
    && cases != []
    && (forall i :: 0 <= i < |cases| ==> GoodCase(cases[i]))
    && DistinctCases(cases)
    && NoLeak(normal, cases)
  }

  /** `registry` maps the keys seen so far to the split they were seen in. */
  ghost predicate Registers(registry: map<string, Split>, cases: seq<Case>, key: Case -> Option<string>) {
    && (forall i :: 0 <= i < |cases| && key(cases[i]).Some? ==>
          key(cases[i]).value in registry && registry[key(cases[i]).value] == cases[i].split)
    && (forall k :: k in registry ==> exists i :: 0 <= i < |cases| && key(cases[i]) == Some(k))
  }

  predicate Clashes(registry: map<string, Split>, key: Option<string>, split: Split) {
    key.Some? && key.value in registry && registry[key.value] != split
  }

  function Register(registry: map<string, Split>, key: Option<string>, split: Split): map<string, Split> {
    if key.Some? then registry[key.value := split] else registry
  }

  /** A clash is exactly an earlier case with the same key in another split. */
  lemma ClashMeansLeak(registry: map<string, Split>, cases: seq<Case>, key: Case -> Option<string>, c: Case)
    requires Registers(registry, cases, key)
    ensures Clashes(registry, key(c), c.split)
      <==> exists i :: 0 <= i < |cases| && key(c).Some? && key(cases[i]) == key(c) && cases[i].split != c.split
  {
  }

  lemma RegisterOne(registry: map<string, Split>, cases: seq<Case>, key: Case -> Option<string>, c: Case)
    requires Registers(registry, cases, key) && !Clashes(registry, key(c), c.split)
    ensures Registers(Register(registry, key(c), c.split), cases + [c], key)
  {
    var more, after := cases + [c], Register(registry, key(c), c.split);
    forall k | k in after ensures exists i :: 0 <= i < |more| && key(more[i]) == Some(k) {
      if k in registry {
        var i :| 0 <= i < |cases| && key(cases[i]) == Some(k);
        assert more[i] == cases[i];
      } else {
        assert more[|cases|] == c;
      }
    }
  }

  function GroupKey(c: Case): Option<string> {
    Some(c.groupId)
  }

  /** The fingerprint of the normalised state; injective, so the text itself serves as the key. */
  function StateKey(normal: string -> string): Case -> Option<string> {
    (c: Case) => Some(normal(c.request.state))
  }

  function SourceKey(c: Case): Option<string> {
    if c.provenance.Some? then Some(c.provenance.value.sourceId) else None
  }

  ghost predicate AllGood(seen: seq<Case>) {
    forall i :: 0 <= i < |seen| ==> GoodCase(seen[i])
  }

  ghost predicate SeenIds(seen: seq<Case>, ids: set<string>) {
    forall x :: x in ids <==> exists i :: 0 <= i < |seen| && seen[i].id == x
  }

  /** The three registries and the id set describe the cases scanned so far, among which nothing leaks. */
  ghost predicate Scanned(normal: string -> string, seen: seq<Case>, ids: set<string>,
                          groups: map<string, Split>, states: map<string, Split>, sources: map<string, Split>)
  {
    && AllGood(seen) && SeenIds(seen, ids) && DistinctCases(seen) && NoLeak(normal, seen)
    && Registers(groups, seen, GroupKey) && Registers(states, seen, StateKey(normal))
    && Registers(sources, seen, SourceKey)
  }

  predicate AnyClash(normal: string -> string, c: Case,
                     groups: map<string, Split>, states: map<string, Split>, sources: map<string, Split>)
  {
    || Clashes(groups, GroupKey(c), c.split)
    || Clashes(states, StateKey(normal)(c), c.split)
    || Clashes(sources, SourceKey(c), c.split)
  }

  lemma AnyClashMeansLeak(normal: string -> string, seen: seq<Case>, ids: set<string>, c: Case,
                          groups: map<string, Split>, states: map<string, Split>, sources: map<string, Split>)
    requires Scanned(normal, seen, ids, groups, states, sources)
    ensures AnyClash(normal, c, groups, states, sources)
      <==> exists i :: 0 <= i < |seen| && Related(normal, seen[i], c) && seen[i].split != c.split
  {
    hide Registers, Clashes, NoLeak, DistinctCases, AllGood, SeenIds;
    ClashMeansLeak(groups, seen, GroupKey, c);
    ClashMeansLeak(states, seen, StateKey(normal), c);
    ClashMeansLeak(sources, seen, SourceKey, c);
  }

  lemma ScanOne(normal: string -> string, seen: seq<Case>, ids: set<string>, c: Case,
                groups: map<string, Split>, states: map<string, Split>, sources: map<string, Split>)
    requires Scanned(normal, seen, ids, groups, states, sources)
    requires GoodCase(c) && c.id !in ids && !AnyClash(normal, c, groups, states, sources)
    ensures Scanned(normal, seen + [c], ids + {c.id}, Register(groups, GroupKey(c), c.split),
                    Register(states, StateKey(normal)(c), c.split), Register(sources, SourceKey(c), c.split))
  {
    hide Registers, Clashes, NoLeak, GoodCase, Register, AnyClash, DistinctCases, GroupKey, SourceKey, StateKey,
         Related, AllGood, SeenIds;
    NoClash(normal, c, groups, states, sources);
    DistinctGrows(seen, ids, c);
    GoodGrows(seen, c);
    AnyClashMeansLeak(normal, seen, ids, c, groups, states, sources);
    RegisterOne(groups, seen, GroupKey, c);
    RegisterOne(states, seen, StateKey(normal), c);
    RegisterOne(sources, seen, SourceKey, c);
    NoLeakGrows(normal, seen, c);
    IdsGrow(seen, ids, c);
  }

  lemma NoClash(normal: string -> string, c: Case,
                groups: map<string, Split>, states: map<string, Split>, sources: map<string, Split>)
    requires !AnyClash(normal, c, groups, states, sources)
    ensures !Clashes(groups, GroupKey(c), c.split) && !Clashes(states, StateKey(normal)(c), c.split)
    ensures !Clashes(sources, SourceKey(c), c.split)
  {
    hide Clashes;
  }

  lemma DistinctGrows(seen: seq<Case>, ids: set<string>, c: Case)
    requires DistinctCases(seen) && c.id !in ids && SeenIds(seen, ids)
    ensures DistinctCases(seen + [c])
  {
    forall i | 0 <= i < |seen| ensures seen[i].id != c.id { assert seen[i].id in ids; }
  }

  lemma GoodGrows(seen: seq<Case>, c: Case)
    requires AllGood(seen) && GoodCase(c)
    ensures AllGood(seen + [c])
  {
    hide GoodCase;
  }

  lemma IdsGrow(seen: seq<Case>, ids: set<string>, c: Case)
    requires SeenIds(seen, ids)
    ensures SeenIds(seen + [c], ids + {c.id})
  {
    var more := seen + [c];
    forall x | x in ids + {c.id} ensures exists i :: 0 <= i < |more| && more[i].id == x {
      if x in ids {
        var i :| 0 <= i < |seen| && seen[i].id == x;
        assert more[i].id == x;
      } else {
        assert more[|seen|].id == x;
      }
    }
  }

  /**
   The scan is sound and complete: it accepts exactly the datasets whose cases are well formed, have
   distinct ids, and never put a shared group, normalised state or source into two splits.
   */
  method ValidateDataset(normal: string -> string, cases: seq<Case>) returns (ok: bool)
    ensures ok <==> ValidDataset(normal, cases)
  {
    hide Scanned, GoodCase, AnyClash, NoLeak, DistinctCases, Register;
    if cases == [] { return false; }
    var ids: set<string> := {};
    var groups: map<string, Split>, states: map<string, Split>, sources: map<string, Split> := map[], map[], map[];
    ScanNone(normal);
    for k := 0 to |cases|
      invariant Scanned(normal, cases[..k], ids, groups, states, sources)
    {
      var c := cases[k];
      assert cases[..k + 1] == cases[..k] + [c];
      if !GoodCase(c) { return false; }
      if c.id in ids || AnyClash(normal, c, groups, states, sources) {
        RightlyRefused(normal, cases, k, ids, groups, states, sources);
        return false;
      }
      ScanOne(normal, cases[..k], ids, c, groups, states, sources);
      ids := ids + {c.id};
      groups := Register(groups, GroupKey(c), c.split);
      states := Register(states, StateKey(normal)(c), c.split);
      sources := Register(sources, SourceKey(c), c.split);
    }
    assert cases[..|cases|] == cases;
    ScanAll(normal, cases, ids, groups, states, sources);
    ok := true;
  }

  lemma ScanNone(normal: string -> string)
    ensures Scanned(normal, [], {}, map[], map[], map[])
  {
  }

  lemma ScanAll(normal: string -> string, cases: seq<Case>, ids: set<string>,
                groups: map<string, Split>, states: map<string, Split>, sources: map<string, Split>)
    requires cases != [] && Scanned(normal, cases, ids, groups, states, sources)
    ensures ValidDataset(normal, cases)
  {
  }

  lemma RightlyRefused(normal: string -> string, cases: seq<Case>, k: nat, ids: set<string>,
                       groups: map<string, Split>, states: map<string, Split>, sources: map<string, Split>)
    requires k < |cases| && Scanned(normal, cases[..k], ids, groups, states, sources)
    requires cases[k].id in ids || AnyClash(normal, cases[k], groups, states, sources)
    ensures !ValidDataset(normal, cases)
  {
    hide AnyClash, GoodCase, Related, Registers;
    var seen, c := cases[..k], cases[k];
    if c.id in ids {
      var i :| 0 <= i < |seen| && seen[i].id == c.id;
      assert cases[i].id == c.id;
    } else {
      AnyClashMeansLeak(normal, seen, ids, c, groups, states, sources);
      var i :| 0 <= i < |seen| && Related(normal, seen[i], c) && seen[i].split != c.split;
      assert Related(normal, cases[i], c) && cases[i].split != c.split;
    }
  }

  lemma NoLeakGrows(normal: string -> string, cases: seq<Case>, c: Case)
    requires NoLeak(normal, cases)
    requires forall i :: 0 <= i < |cases| && Related(normal, cases[i], c) ==> cases[i].split == c.split
    ensures NoLeak(normal, cases + [c])
  {
    var more := cases + [c];
    forall i, j | 0 <= i < |more| && 0 <= j < |more| && Related(normal, more[i], more[j])
      ensures more[i].split == more[j].split
    {
      if i < |cases| && j < |cases| { assert Related(normal, cases[i], cases[j]); }
    }
  }

  // ----- Acceptance does not depend on the order of the cases -----

  ghost predicate ValidBag(normal: string -> string, bag: multiset<Case>) {
    && bag != multiset{}
    && (forall c :: c in bag ==> GoodCase(c) && bag[c] == 1)
    && (forall c, d :: c in bag && d in bag && c.id == d.id ==> c == d)
    && (forall c, d :: c in bag && d in bag && Related(normal, c, d) ==> c.split == d.split)
  }

  lemma {:induction false} CountIsOne(cases: seq<Case>, c: Case)
    requires DistinctCases(cases) && c in cases
    ensures multiset(cases)[c] == 1
  {
    assert cases == [cases[0]] + cases[1..];
    if cases[0] == c {
      assert c !in cases[1..];
    } else {
      CountIsOne(cases[1..], c);
    }
  }

  lemma RepeatCounts(cases: seq<Case>, i: nat, j: nat)
    requires i < j < |cases| && cases[i] == cases[j]
    ensures multiset(cases)[cases[i]] >= 2
  {
    assert cases == cases[..j] + cases[j..];
    assert cases[i] in cases[..j] && cases[j] in cases[j..];
    assert multiset(cases) == multiset(cases[..j]) + multiset(cases[j..]);
  }

  lemma ValidGivesBag(normal: string -> string, cases: seq<Case>)
    requires ValidDataset(normal, cases)
    ensures ValidBag(normal, multiset(cases))
  {
    hide GoodCase, Related;
    var bag := multiset(cases);
    assert cases[0] in bag;
    forall c | c in bag ensures GoodCase(c) && bag[c] == 1 {
      assert c in cases;
      CountIsOne(cases, c);
    }
    forall c, d | c in bag && d in bag
      ensures (c.id == d.id ==> c == d) && (Related(normal, c, d) ==> c.split == d.split)
    {
      assert c in cases && d in cases;
    }
  }

  lemma BagGivesValid(normal: string -> string, cases: seq<Case>)
    requires ValidBag(normal, multiset(cases))
    ensures ValidDataset(normal, cases)
  {
    hide GoodCase, Related;
    var bag := multiset(cases);
    forall i, j | 0 <= i < j < |cases| ensures cases[i].id != cases[j].id {
      assert cases[i] in bag && cases[j] in bag;
      if cases[i] == cases[j] { RepeatCounts(cases, i, j); }
    }
    forall i | 0 <= i < |cases| ensures GoodCase(cases[i]) { assert cases[i] in bag; }
    forall i, j | 0 <= i < |cases| && 0 <= j < |cases| && Related(normal, cases[i], cases[j])
      ensures cases[i].split == cases[j].split
    {
      assert cases[i] in bag && cases[j] in bag;
    }
  }

  /** Acceptance does not depend on the order of the cases. */
  lemma AcceptanceIsOrderFree(normal: string -> string, cases: seq<Case>, shuffled: seq<Case>)
    requires multiset(cases) == multiset(shuffled)
    ensures ValidDataset(normal, cases) <==> ValidDataset(normal, shuffled)
  {
    hide ValidDataset, ValidBag;
    if ValidDataset(normal, cases) { ValidGivesBag(normal, cases); BagGivesValid(normal, shuffled); }
    if ValidDataset(normal, shuffled) { ValidGivesBag(normal, shuffled); BagGivesValid(normal, cases); }
  }
}
