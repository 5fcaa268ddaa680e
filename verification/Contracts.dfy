/**
 Decision requests: the wire form, the strict parser `Request.from_dict`, its inverse `to_dict`, and
 the two digests.  SHA-256 over canonical JSON is modelled as an injective function: a digest is the
 content it was computed from.
 */
module Contracts {
  import opened Outcomes

  const SCHEMA_VERSION := "agat.decision.v1"
  const SCORE_FINGERPRINT_VERSION := "binary64-v1"
  const MAX_OPTIONS := 10

  /** A JSON scalar in the `value` field of an option. */
  datatype Scalar = Null | Flag(flag: bool) | Number(number: real)

  datatype RawOption = RawOption(id: string, description: string, abstain: Option<bool>, value: Option<Scalar>)

  datatype RawRequest = RawRequest(
    schemaVersion: string, id: string, state: string, question: string, kind: string,
    options: seq<RawOption>, version: Option<string>)

  datatype Kind = Choice | Boolean | Score

  datatype Candidate = Candidate(id: string, description: string, abstain: bool, value: Scalar)

  datatype Request = Request(
    id: string, state: string, question: string, kind: Kind, options: seq<Candidate>, version: Option<string>)

  datatype Digest =
    | InputDigest(state: string, question: string, kind: Kind, options: seq<Candidate>, version: Option<string>)
    | SchemaDigest(question: string, kind: Kind, options: seq<Candidate>, version: Option<string>)

  predicate IsBlank(c: char) {
    c == ' ' || c == '\t' || c == '\n' || c == '\r'
  }

  /** `string`: not blank and not too long. */
  predicate GoodString(s: string, limit: nat) {
    |s| <= limit && exists i :: 0 <= i < |s| && !IsBlank(s[i])
  }

  predicate IsIdentifierChar(c: char) {
    'A' <= c <= 'Z' || 'a' <= c <= 'z' || '0' <= c <= '9' || c == '_' || c == '.' || c == ':' || c == '-'
  }

  predicate GoodIdentifier(s: string, limit: nat) {
    GoodString(s, limit) && forall i :: 0 <= i < |s| ==> IsIdentifierChar(s[i])
  }

  function KindOf(name: string): Option<Kind> {
    if name == "choice" then Some(Choice)
    else if name == "boolean" then Some(Boolean)
    else if name == "score" then Some(Score)
    else None
  }

  function KindName(kind: Kind): string {
    match kind
    case Choice => "choice"
    case Boolean => "boolean"
    case Score => "score"
  }

  /** The checks on one option, which depend on the kind of the request. */
  predicate GoodOption(kind: Kind, o: RawOption) {
    && GoodIdentifier(o.id, 80)
    && GoodString(o.description, 1000)
    && match kind
       case Choice => o.value == None
       case Boolean => o.value.Some? && o.value.value.Flag? && o.abstain != Some(true)
       case Score => o.value.Some? && o.value.value.Number? && -1.0e6 <= o.value.value.number <= 1.0e6
                     && o.abstain != Some(true)
  }

  function ParseOption(o: RawOption): Candidate {
    Candidate(o.id, o.description, o.abstain == Some(true), o.value.GetOr(Null))
  }

  function ParseOptions(os: seq<RawOption>): (cs: seq<Candidate>)
    ensures |cs| == |os| && forall i :: 0 <= i < |os| ==> cs[i] == ParseOption(os[i])
  {
    seq(|os|, i requires 0 <= i < |os| => ParseOption(os[i]))
  }

  predicate DistinctIds(cs: seq<Candidate>) {
    forall i, j :: 0 <= i < j < |cs| ==> cs[i].id != cs[j].id
  }

  predicate DistinctDescriptions(cs: seq<Candidate>) {
    forall i, j :: 0 <= i < j < |cs| ==> cs[i].description != cs[j].description
  }

  predicate DistinctValues(cs: seq<Candidate>) {
    forall i, j :: 0 <= i < j < |cs| ==> cs[i].value != cs[j].value
  }

  predicate GoodHeader(raw: RawRequest) {
    && raw.schemaVersion == SCHEMA_VERSION
    && KindOf(raw.kind).Some?
    && (raw.version.Some? ==> raw.version.value == SCORE_FINGERPRINT_VERSION && raw.kind == "score")
    && 2 <= |raw.options| <= MAX_OPTIONS
  }

  predicate GoodText(raw: RawRequest) {
    GoodIdentifier(raw.id, 100) && GoodString(raw.state, 24000) && GoodString(raw.question, 2000)
  }

  /** Ids and descriptions are unique; boolean options are exactly true and false, score levels unique. */
  predicate GoodCandidates(kind: Kind, cs: seq<Candidate>) {
    && DistinctIds(cs)
    && DistinctDescriptions(cs)
    && (kind != Choice ==> DistinctValues(cs))
    && (kind == Boolean ==> |cs| == 2)
  }

  predicate WellFormed(raw: RawRequest) {
    && GoodHeader(raw)
    && (forall i :: 0 <= i < |raw.options| ==> GoodOption(KindOf(raw.kind).value, raw.options[i]))
    && GoodCandidates(KindOf(raw.kind).value, ParseOptions(raw.options))
    && GoodText(raw)
  }

  /** What the parser returns; `ParseRequest` below is the source's loop. */
  function Parse(raw: RawRequest): Result<Request, Code> {
    if WellFormed(raw)
    then Success(Request(raw.id, raw.state, raw.question, KindOf(raw.kind).value, ParseOptions(raw.options),
                         raw.version))
    else Failure(InvalidRequest)
  }

  method ParseRequest(raw: RawRequest) returns (r: Result<Request, Code>)
    ensures r == Parse(raw)
  {
    if !GoodHeader(raw) { return Failure(InvalidRequest); }
    var kind := KindOf(raw.kind).value;
    var options: seq<Candidate> := [];
    for k := 0 to |raw.options|
      invariant forall i :: 0 <= i < k ==> GoodOption(kind, raw.options[i])
      invariant |options| == k && forall i :: 0 <= i < k ==> options[i] == ParseOption(raw.options[i])
    {
      if !GoodOption(kind, raw.options[k]) { return Failure(InvalidRequest); }
      options := options + [ParseOption(raw.options[k])];
    }
    assert options == ParseOptions(raw.options);
    if !GoodCandidates(kind, options) || !GoodText(raw) { return Failure(InvalidRequest); }
    r := Success(Request(raw.id, raw.state, raw.question, kind, options, raw.version));
  }

  function OptionToDict(kind: Kind, c: Candidate): RawOption {
    RawOption(c.id, c.description, Some(c.abstain), if kind == Choice then None else Some(c.value))
  }

  function ToDict(q: Request): RawRequest {
    RawRequest(SCHEMA_VERSION, q.id, q.state, q.question, KindName(q.kind),
               seq(|q.options|, i requires 0 <= i < |q.options| => OptionToDict(q.kind, q.options[i])), q.version)
  }

  ghost predicate IsRequest(q: Request) {
    exists raw :: Parse(raw) == Success(q)
  }

  lemma RequestFacts(q: Request)
    requires IsRequest(q)
    ensures 2 <= |q.options| <= MAX_OPTIONS && DistinctIds(q.options)
  {
  }

  /** `from_dict` undoes `to_dict` on every request it can produce. */
  lemma ParseToDict(q: Request)
    requires IsRequest(q)
    ensures Parse(ToDict(q)) == Success(q)
  {
    var raw :| Parse(raw) == Success(q);
    var again := ToDict(q);
    assert ParseOptions(again.options) == q.options by {
      forall i | 0 <= i < |q.options| ensures ParseOptions(again.options)[i] == q.options[i] {
        assert GoodOption(q.kind, raw.options[i]);
      }
    }
    forall i | 0 <= i < |again.options| ensures GoodOption(q.kind, again.options[i]) {
      assert GoodOption(q.kind, raw.options[i]);
    }
  }

  /** The digest of what the model sees; the case id does not enter it. */
  function InputSha(q: Request): Digest {
    InputDigest(q.state, q.question, q.kind, q.options, q.version)
  }

  /** So a result or a label bound to a digest is bound to everything the model saw, and only to that. */
  lemma InputShaIsTheInput(q: Request, r: Request)
    ensures InputSha(q) == InputSha(r)
      <==> q.state == r.state && q.question == r.question && q.kind == r.kind && q.options == r.options
           && q.version == r.version
  {
  }

  function Reversed<T>(s: seq<T>): (r: seq<T>)
    ensures |r| == |s| && forall i :: 0 <= i < |s| ==> r[i] == s[|s| - 1 - i]
  {
    seq(|s|, i requires 0 <= i < |s| => s[|s| - 1 - i])
  }

  function ReversedRaw(raw: RawRequest): RawRequest {
    raw.(options := Reversed(raw.options))
  }

  /** Reversing the options of a wire request reverses the options of what it parses to, and nothing else. */
  lemma ParseReversed(raw: RawRequest)
    ensures WellFormed(ReversedRaw(raw)) <==> WellFormed(raw)
    ensures Parse(raw).Success? ==>
      Parse(ReversedRaw(raw)) == Success(Parse(raw).value.(options := Reversed(Parse(raw).value.options)))
  {
    if WellFormed(raw) { ReversedKeepsWellFormed(raw); }
    if WellFormed(ReversedRaw(raw)) { ReversedKeepsWellFormed(ReversedRaw(raw)); }
    assert Reversed(Reversed(raw.options)) == raw.options;
    assert ParseOptions(Reversed(raw.options)) == Reversed(ParseOptions(raw.options));
  }

  lemma ReversedKeepsWellFormed(raw: RawRequest)
    requires WellFormed(raw)
    ensures WellFormed(ReversedRaw(raw))
  {
    var cs := ParseOptions(raw.options);
    var n := |cs|;
    assert ParseOptions(Reversed(raw.options)) == Reversed(cs);
    forall i, j | 0 <= i < j < n
      ensures Reversed(cs)[i].id != Reversed(cs)[j].id && Reversed(cs)[i].description != Reversed(cs)[j].description
      ensures KindOf(raw.kind).value != Choice ==> Reversed(cs)[i].value != Reversed(cs)[j].value
    {
      assert cs[n - 1 - j].id != cs[n - 1 - i].id;
      assert cs[n - 1 - j].description != cs[n - 1 - i].description;
    }
  }

  // ----- The schema digest sorts the options by id -----

  predicate TextLeq(s: string, t: string) {
    s == [] || (t != [] && (s[0] < t[0] || (s[0] == t[0] && TextLeq(s[1..], t[1..]))))
  }

  lemma {:induction false} TextOrder(s: string, t: string, u: string)
    ensures TextLeq(s, t) || TextLeq(t, s)
    ensures TextLeq(s, t) && TextLeq(t, s) ==> s == t
    ensures TextLeq(s, t) && TextLeq(t, u) ==> TextLeq(s, u)
  {
    if s != [] && t != [] {
      TextOrder(s[1..], t[1..], if u == [] then [] else u[1..]);
      if s[0] == t[0] && s[1..] == t[1..] { assert s == [s[0]] + s[1..] && t == [t[0]] + t[1..]; }
    }
  }

  function InsertById(c: Candidate, cs: seq<Candidate>): seq<Candidate> {
    if cs == [] || TextLeq(c.id, cs[0].id) then [c] + cs else [cs[0]] + InsertById(c, cs[1..])
  }

  function SortById(cs: seq<Candidate>): seq<Candidate> {
    if cs == [] then [] else InsertById(cs[0], SortById(cs[1..]))
  }

  ghost predicate NoneBelow(c: Candidate, cs: seq<Candidate>) {
    forall d :: d in cs ==> TextLeq(c.id, d.id)
  }

  ghost predicate SortedById(cs: seq<Candidate>) {
    cs == [] || (NoneBelow(cs[0], cs) && SortedById(cs[1..]))
  }

  function SchemaSha(q: Request): Digest {
    SchemaDigest(q.question, q.kind, SortById(q.options), q.version)
  }

  lemma {:induction false} InsertByIdKeeps(c: Candidate, cs: seq<Candidate>)
    ensures multiset(InsertById(c, cs)) == multiset(cs) + multiset{c}
    ensures forall d :: d in InsertById(c, cs) <==> d == c || d in cs
  {
    if cs != [] && !TextLeq(c.id, cs[0].id) {
      InsertByIdKeeps(c, cs[1..]);
      assert cs == [cs[0]] + cs[1..];
    }
  }

  lemma {:induction false} InsertByIdSorts(c: Candidate, cs: seq<Candidate>)
    requires SortedById(cs)
    ensures SortedById(InsertById(c, cs))
  {
    InsertByIdKeeps(c, cs);
    TextOrder(c.id, c.id, c.id);
    if cs == [] {
    } else if TextLeq(c.id, cs[0].id) {
      forall d | d in cs ensures TextLeq(c.id, d.id) { TextOrder(c.id, cs[0].id, d.id); }
      assert ([c] + cs)[1..] == cs;
    } else {
      InsertByIdSorts(c, cs[1..]);
      TextOrder(c.id, cs[0].id, c.id);
      assert InsertById(c, cs)[1..] == InsertById(c, cs[1..]);
    }
  }

  lemma {:induction false} SortByIdSorts(cs: seq<Candidate>)
    ensures SortedById(SortById(cs)) && multiset(SortById(cs)) == multiset(cs)
  {
    if cs != [] {
      hide InsertById, TextLeq, NoneBelow;
      SortByIdSorts(cs[1..]);
      InsertByIdSorts(cs[0], SortById(cs[1..]));
      InsertByIdKeeps(cs[0], SortById(cs[1..]));
      assert cs == [cs[0]] + cs[1..];
    }
  }

  ghost predicate IdsTell(m: multiset<Candidate>) {
    forall c, d :: c in m && d in m && c.id == d.id ==> c == d
  }

  lemma SortedHead(cs: seq<Candidate>, ds: seq<Candidate>)
    requires cs != [] && ds != [] && SortedById(cs) && SortedById(ds) && multiset(cs) == multiset(ds)
    requires IdsTell(multiset(cs))
    ensures cs[0] == ds[0]
  {
    assert cs[0] in multiset(ds) && ds[0] in multiset(cs);
    TextOrder(cs[0].id, ds[0].id, cs[0].id);
  }

  lemma TailMultiset(cs: seq<Candidate>)
    requires cs != []
    ensures multiset(cs[1..]) == multiset(cs) - multiset{cs[0]}
  {
    assert cs == [cs[0]] + cs[1..];
  }

  /** With distinct ids there is only one sorted arrangement. */
  lemma {:induction false} SortedIsUnique(cs: seq<Candidate>, ds: seq<Candidate>)
    requires SortedById(cs) && SortedById(ds) && multiset(cs) == multiset(ds) && IdsTell(multiset(cs))
    ensures cs == ds
  {
    assert |cs| == |multiset(cs)| == |ds|;
    if cs != [] {
      SortedHead(cs, ds);
      TailMultiset(cs);
      TailMultiset(ds);
      SortedIsUnique(cs[1..], ds[1..]);
      assert cs == [cs[0]] + cs[1..] && ds == [ds[0]] + ds[1..];
    }
  }

  lemma IdsDetermine(cs: seq<Candidate>)
    requires DistinctIds(cs)
    ensures IdsTell(multiset(cs))
  {
    forall c, d | c in multiset(cs) && d in multiset(cs) && c.id == d.id ensures c == d {
      assert c in cs && d in cs;
    }
  }

  /**
   The calibration scope does not depend on the order of the options: two requests whose options are
   permutations of each other have the same schema digest, and only such requests do.
   */
  lemma SchemaShaIsOrderFree(q: Request, r: Request)
    requires IsRequest(q)
    ensures SchemaSha(q) == SchemaSha(r)
      <==> q.question == r.question && q.kind == r.kind && q.version == r.version
           && multiset(q.options) == multiset(r.options)
  {
    SortByIdSorts(q.options);
    SortByIdSorts(r.options);
    if multiset(q.options) == multiset(r.options) {
      IdsDetermine(q.options);
      SortedIsUnique(SortById(q.options), SortById(r.options));
    }
  }

  lemma {:induction false} ReversedIsPermutation<T>(s: seq<T>)
    ensures multiset(Reversed(s)) == multiset(s)
  {
    if s != [] {
      ReversedIsPermutation(s[1..]);
      assert Reversed(s) == Reversed(s[1..]) + [s[0]];
      assert s == [s[0]] + s[1..];
    }
  }

  // ----- The smallest requests -----

  lemma ShortIdentifier(s: string, limit: nat)
    requires 0 < |s| <= limit && forall i :: 0 <= i < |s| ==> 'a' <= s[i] <= 'z'
    ensures GoodIdentifier(s, limit)
  {
    assert !IsBlank(s[0]);
  }

  const TWO_OPTIONS := [RawOption("x", "one", None, None), RawOption("y", "two", None, None)]

  function SmallRequest(id: string, state: string): RawRequest {
    RawRequest(SCHEMA_VERSION, id, state, "q", "choice", TWO_OPTIONS, None)
  }

  lemma SmallOptions()
    ensures GoodOption(Choice, TWO_OPTIONS[0]) && GoodOption(Choice, TWO_OPTIONS[1])
    ensures GoodCandidates(Choice, ParseOptions(TWO_OPTIONS)) && ParseOptions(TWO_OPTIONS)[0].id == "x"
  {
    ShortIdentifier("x", 80);
    ShortIdentifier("y", 80);
    ShortIdentifier("one", 1000);
    ShortIdentifier("two", 1000);
    hide IsBlank, IsIdentifierChar;
    var cs := ParseOptions(TWO_OPTIONS);
    assert cs[0].id[0] == 'x' && cs[1].id[0] == 'y' && cs[0].description[0] == 'o' && cs[1].description[0] == 't';
  }

  lemma SmallRequestParses(id: string, state: string)
    requires GoodIdentifier(id, 100) && GoodString(state, 24000)
    ensures Parse(SmallRequest(id, state))
         == Success(Request(id, state, "q", Choice, ParseOptions(TWO_OPTIONS), None))
  {
    SmallOptions();
    ShortIdentifier("q", 2000);
    hide IsBlank, IsIdentifierChar, GoodOption, GoodString, GoodCandidates;
  }
}
