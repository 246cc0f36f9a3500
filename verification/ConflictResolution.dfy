/** Conflict resolution between memory hits (plugins/memory/governance.py). */
module ConflictResolution {
  import opened Sequences
  import opened Text
  import S = StableSort

  /** What `governance_config` and `datetime.fromisoformat` supply. */
  datatype Config = Config(
    defaultAuthority: real,
    defaultConfidence: real,
    sourceCount: nat,
    priorityIndex: string -> int,
    fromIso: string -> Option<real>)

  datatype Record = Record(
    entityId: Option<string>,
    authority: Option<real>,
    confidence: Option<real>,
    timestamp: Option<string>,
    source: Option<string>,
    id: Option<string>)

  datatype ReasonCode =
    | HigherAuthority | HigherConfidence | NewerRecord | SourcePriority | DeterministicRecordId | NoConflict

  /** `idText` is the text whose SHA-1 digest is the decision id. */
  datatype Decision = Decision(
    idText: string,
    reason: ReasonCode,
    winner: Option<string>,
    related: seq<Option<string>>)

  class Hit {
    const id: Option<string>
    const record: Option<Record>
    const score: Option<real>
    var governance: Option<Decision>

    constructor (id: Option<string>, record: Option<Record>, score: Option<real>)
      ensures this.id == id && this.record == record && this.score == score && governance == None
    {
      this.id, this.record, this.score, governance := id, record, score, None;
    }
  }

  /* ----- confidence ----- */

  const MAX_CONFIDENCE := 10.0

  /** `value` is the number given, None when it is missing or does not convert. */
  function NormalizeConfidence(cfg: Config, value: Option<real>): real
  {
    if value == None then cfg.defaultConfidence
    else
      var v := value.value;
      if v < 0.0 then 0.0
      else
        var w := if 10.0 <= v <= 100.0 then v / 100.0 else v;
        if w > MAX_CONFIDENCE then MAX_CONFIDENCE else w
  }

  /** The cap is itself read as a percentage, so normalising twice is harmless exactly up to 100. */
  lemma NormalizeConfidenceTwice(cfg: Config, v: real)
    ensures 0.0 <= NormalizeConfidence(cfg, Some(v)) <= MAX_CONFIDENCE
    ensures NormalizeConfidence(cfg, Some(NormalizeConfidence(cfg, Some(v)))) == NormalizeConfidence(cfg, Some(v))
            <==> v <= 100.0
  {
    if 10.0 <= v <= 100.0 {
      assert 0.0 < v / 100.0 <= 1.0;
    } else if v > 100.0 {
      assert NormalizeConfidence(cfg, Some(MAX_CONFIDENCE)) == 0.1;
    }
  }

  /** Numbers from ten to a hundred are percentages; smaller ones stand for themselves, larger ones for the cap,
      negative ones for nothing, and none for the default. */
  lemma ConfidenceRanges(cfg: Config, x: real)
    ensures 0.1 <= x <= 1.0 ==> NormalizeConfidence(cfg, Some(100.0 * x)) == x
    ensures 0.0 <= x < 10.0 ==> NormalizeConfidence(cfg, Some(x)) == x
    ensures x > 100.0 ==> NormalizeConfidence(cfg, Some(x)) == 10.0
    ensures x < 0.0 ==> NormalizeConfidence(cfg, Some(x)) == 0.0
    ensures NormalizeConfidence(cfg, None) == cfg.defaultConfidence
  {
    if 0.1 <= x <= 1.0 {
      assert 100.0 * x / 100.0 == x;
    }
  }

  /* ----- the tie-break key ----- */

  datatype Key = Key(authority: real, confidence: real, timestamp: real, priority: int, recordId: string)

  /** Order of the tuples `(-auth, -conf, -ts, src_pri, rid)`. */
  predicate KeyLe(a: Key, b: Key)
  {
    if a.authority != b.authority then a.authority > b.authority
    else if a.confidence != b.confidence then a.confidence > b.confidence
    else if a.timestamp != b.timestamp then a.timestamp > b.timestamp
    else if a.priority != b.priority then a.priority < b.priority
    else StrLe(a.recordId, b.recordId)
  }

  /** A trailing Z means UTC; without an offset UTC is assumed; anything unreadable is the epoch. */
  function ParseIsoZ(cfg: Config, ts: Option<string>): real
  {
    if ts == None || ts.value == "" then 0.0
    else
      var s := ts.value;
      var t :=
        if s[|s| - 1] == 'Z' then s[..|s| - 1] + "+00:00"
        else var zone := if |s| > 10 then s[10..] else "";
             if '+' !in zone && '-' !in zone then s + "+00:00" else s;
      match cfg.fromIso(t) case Some(seconds) => seconds case None => 0.0
  }

  function GetOr<T>(o: Option<T>, default: T): T
  {
    if o == None then default else o.value
  }

  function SourcePriorityOf(cfg: Config, source: Option<string>): int
  {
    if source != None && source.value != "" then cfg.priorityIndex(source.value) else cfg.sourceCount + 1000
  }

  function KeyOfRecord(cfg: Config, rec: Record): Key
  {
    Key(GetOr(rec.authority, cfg.defaultAuthority), GetOr(rec.confidence, cfg.defaultConfidence),
        ParseIsoZ(cfg, rec.timestamp), SourcePriorityOf(cfg, rec.source), GetOr(rec.id, ""))
  }

  /** A hit without a record behaves like one with an empty record. */
  function RecordOf(h: Hit): Record
  {
    GetOr(h.record, Record(None, None, None, None, None, None))
  }

  function SortKey(cfg: Config): Hit -> Key
  {
    (h: Hit) => KeyOfRecord(cfg, RecordOf(h))
  }

  function Score(h: Hit): real
  {
    GetOr(h.score, 0.0)
  }

  predicate ScoreDescending(a: real, b: real)
  {
    a >= b
  }

  lemma KeyOrder()
    ensures S.TotalPreorder(KeyLe)
    ensures forall a, b :: KeyLe(a, b) && KeyLe(b, a) ==> a == b
  {
    forall a: Key, b: Key
      ensures KeyLe(a, b) || KeyLe(b, a)
      ensures KeyLe(a, b) && KeyLe(b, a) ==> a == b
    {
      StrLeTotal(a.recordId, b.recordId);
    }
    forall a: Key, b: Key, c: Key | KeyLe(a, b) && KeyLe(b, c)
      ensures KeyLe(a, c)
    {
      if StrLe(a.recordId, b.recordId) && StrLe(b.recordId, c.recordId) {
        StrLeTransitive(a.recordId, b.recordId, c.recordId);
      }
    }
  }

  /* ----- grouping ----- */

  /** The empty entity id is falsy and counts as none. */
  predicate HasEntity(h: Hit)
  {
    RecordOf(h).entityId != None && RecordOf(h).entityId.value != ""
  }

  predicate NoEntity(h: Hit)
  {
    !HasEntity(h)
  }

  function Entity(h: Hit): string
  {
    GetOr(RecordOf(h).entityId, "")
  }

  function OfEntity(e: string): Hit -> bool
  {
    (h: Hit) => HasEntity(h) && Entity(h) == e
  }

  function HitsOf(e: string, xs: seq<Hit>): seq<Hit>
  {
    Filter(xs, OfEntity(e))
  }

  /** Entity ids in order of first appearance. */
  function Entities(xs: seq<Hit>): seq<string>
  {
    if xs == [] then []
    else
      var before, last := Entities(xs[..|xs| - 1]), xs[|xs| - 1];
      if HasEntity(last) && Entity(last) !in before then before + [Entity(last)] else before
  }

  lemma HitsOfLast(xs: seq<Hit>, last: Hit)
    ensures forall e :: HitsOf(e, xs + [last]) == HitsOf(e, xs) + if OfEntity(e)(last) then [last] else []
  {
    forall e ensures HitsOf(e, xs + [last]) == HitsOf(e, xs) + if OfEntity(e)(last) then [last] else [] {
      FilterLast(xs, last, OfEntity(e));
    }
  }

  lemma {:induction false} EntitiesExact(xs: seq<Hit>)
    ensures forall e :: e in Entities(xs) <==> HitsOf(e, xs) != []
    ensures forall i, j :: 0 <= i < j < |Entities(xs)| ==> Entities(xs)[i] != Entities(xs)[j]
  {
    if xs != [] {
      var before, last := xs[..|xs| - 1], xs[|xs| - 1];
      EntitiesExact(before);
      assert xs == before + [last];
      HitsOfLast(before, last);
    }
  }

  /* ----- one group ----- */

  function Ranked(cfg: Config, hits: seq<Hit>): seq<Hit>
  {
    S.Sort(hits, SortKey(cfg), KeyLe)
  }

  function Winner(cfg: Config, hits: seq<Hit>): Hit
    requires hits != []
  {
    KeyOrder();
    S.SortSorted(hits, SortKey(cfg), KeyLe);
    Ranked(cfg, hits)[0]
  }

  function ReasonFor(cfg: Config, hits: seq<Hit>): ReasonCode
    requires hits != []
  {
    KeyOrder();
    S.SortSorted(hits, SortKey(cfg), KeyLe);
    var ranked := Ranked(cfg, hits);
    if |ranked| > 1 then
      var w, r := SortKey(cfg)(ranked[0]), SortKey(cfg)(ranked[1]);
      if w.authority != r.authority then HigherAuthority
      else if w.confidence != r.confidence then HigherConfidence
      else if w.timestamp != r.timestamp then NewerRecord
      else if w.priority != r.priority then SourcePriority
      else DeterministicRecordId
    else NoConflict
  }

  /** `str(x)`: a missing id prints as None. */
  function PyStr(id: Option<string>): string
  {
    GetOr(id, "None")
  }

  function IdTexts(hits: seq<Hit>): seq<string>
  {
    if hits == [] then [] else [PyStr(hits[0].id)] + IdTexts(hits[1..])
  }

  function Ids(hits: seq<Hit>): seq<Option<string>>
  {
    if hits == [] then [] else [hits[0].id] + Ids(hits[1..])
  }

  function Itself(s: string): string
  {
    s
  }

  function DecisionFor(cfg: Config, e: string, hits: seq<Hit>): Decision
    requires hits != []
  {
    var w := Winner(cfg, hits).id;
    var related := Join(",", S.Sort(IdTexts(hits), Itself, StrLe));
    Decision("CONFLICT_RESOLUTION|" + e + "|" + PyStr(w) + "|" + related, ReasonFor(cfg, hits), w, Ids(hits))
  }

  /** The winner beats every hit of its group on the five-part key. */
  lemma WinnerIsLeast(cfg: Config, hits: seq<Hit>, h: Hit)
    requires h in hits
    ensures Winner(cfg, hits) in hits
    ensures KeyLe(SortKey(cfg)(Winner(cfg, hits)), SortKey(cfg)(h))
  {
    KeyOrder();
    S.SortSorted(hits, SortKey(cfg), KeyLe);
    S.SortMember(hits, SortKey(cfg), KeyLe, h);
    S.SortMember(hits, SortKey(cfg), KeyLe, Winner(cfg, hits));
    S.HeadIsLeast(Ranked(cfg, hits), h, SortKey(cfg), KeyLe);
  }

  /** What a reason code says about the keys of winner and runner-up. */
  predicate Explains(code: ReasonCode, w: Key, r: Key)
  {
    match code
    case HigherAuthority => w.authority > r.authority
    case HigherConfidence => w.authority == r.authority && w.confidence > r.confidence
    case NewerRecord => w.authority == r.authority && w.confidence == r.confidence && w.timestamp > r.timestamp
    case SourcePriority => w.(priority := r.priority, recordId := r.recordId) == r && w.priority < r.priority
    case DeterministicRecordId => w.(recordId := r.recordId) == r && StrLe(w.recordId, r.recordId)
    case NoConflict => false
  }

  /** `a` comes before `b` whatever the input order. */
  predicate KeyLess(a: Key, b: Key)
  {
    KeyLe(a, b) && !KeyLe(b, a)
  }

  /** The reason code names the first component on which winner and runner-up differ, or the record id when
      they differ on none; the runner-up is in turn no worse than every other hit. */
  lemma ReasonNamesFirstDifference(cfg: Config, hits: seq<Hit>)
    requires hits != []
    ensures ReasonFor(cfg, hits) == NoConflict <==> |hits| == 1
    ensures |hits| > 1 ==>
      && |Ranked(cfg, hits)| == |hits|
      && (forall i :: 1 <= i < |hits| ==> KeyLe(SortKey(cfg)(Ranked(cfg, hits)[1]), SortKey(cfg)(Ranked(cfg, hits)[i])))
      && Explains(ReasonFor(cfg, hits), SortKey(cfg)(Winner(cfg, hits)), SortKey(cfg)(Ranked(cfg, hits)[1]))
  {
    KeyOrder();
    S.SortSorted(hits, SortKey(cfg), KeyLe);
    if |hits| > 1 {
      RunnerUp(cfg, hits);
    }
  }

  lemma RunnerUp(cfg: Config, hits: seq<Hit>)
    requires |hits| > 1
    ensures |Ranked(cfg, hits)| == |hits|
    ensures KeyLe(SortKey(cfg)(Winner(cfg, hits)), SortKey(cfg)(Ranked(cfg, hits)[1]))
    ensures forall i :: 1 <= i < |hits| ==>
      KeyLe(SortKey(cfg)(Ranked(cfg, hits)[1]), SortKey(cfg)(Ranked(cfg, hits)[i]))
  {
    KeyOrder();
    S.SortSorted(hits, SortKey(cfg), KeyLe);
    var second := SortKey(cfg)(Ranked(cfg, hits)[1]);
    assert KeyLe(second, second);
  }

  /** One position holds a key before that of every other. */
  predicate SingleBest(cfg: Config, hits: seq<Hit>)
  {
    exists i :: 0 <= i < |hits| && BestAt(cfg, hits, i)
  }

  predicate BestAt(cfg: Config, hits: seq<Hit>, i: nat)
    requires i < |hits|
  {
    forall j :: 0 <= j < |hits| && j != i ==> KeyLess(SortKey(cfg)(hits[i]), SortKey(cfg)(hits[j]))
  }

  /** The hits that share the least key. */
  function TiedForBest(cfg: Config, hits: seq<Hit>): Hit -> bool
    requires hits != []
  {
    S.Ties<Hit, Key>(SortKey(cfg), KeyLe, SortKey(cfg)(Winner(cfg, hits)))
  }

  lemma TiedIff(cfg: Config, hits: seq<Hit>, h: Hit)
    requires hits != []
    ensures TiedForBest(cfg, hits)(h) <==> SortKey(cfg)(h) == SortKey(cfg)(Winner(cfg, hits))
  {
    KeyOrder();
    var k := SortKey(cfg)(h);
    assert KeyLe(k, k);
  }

  /** Sorting keeps the number of hits tied for best, so there is one exactly when the input has a best. */
  lemma SingleBestIff(cfg: Config, hits: seq<Hit>)
    requires hits != []
    ensures SingleBest(cfg, hits) <==> |Filter(hits, TiedForBest(cfg, hits))| == 1
  {
    var p, w := TiedForBest(cfg, hits), Winner(cfg, hits);
    WinnerIsLeast(cfg, hits, hits[0]);
    var i :| 0 <= i < |hits| && hits[i] == w;
    forall h ensures p(h) <==> SortKey(cfg)(h) == SortKey(cfg)(w) { TiedIff(cfg, hits, h); }
    forall j | 0 <= j < |hits| ensures KeyLe(SortKey(cfg)(w), SortKey(cfg)(hits[j])) {
      WinnerIsLeast(cfg, hits, hits[j]);
    }
    KeyOrder();
    if j :| 0 <= j < |hits| && j != i && p(hits[j]) {
      TwoKept(hits, p, if i < j then i else j, if i < j then j else i);
      forall b | 0 <= b < |hits| ensures !BestAt(cfg, hits, b) {
        var other := if b == i then j else i;
        assert !KeyLess(SortKey(cfg)(hits[b]), SortKey(cfg)(hits[other]));
      }
    } else {
      OneKept(hits, p, i);
      assert BestAt(cfg, hits, i);
    }
  }

  lemma RankedTies(cfg: Config, hits: seq<Hit>)
    requires hits != []
    ensures Filter(Ranked(cfg, hits), TiedForBest(cfg, hits)) == Filter(hits, TiedForBest(cfg, hits))
  {
    KeyOrder();
    S.SortStable<Hit, Key>(hits, SortKey(cfg), KeyLe, SortKey(cfg)(Winner(cfg, hits)));
  }

  lemma RunnerUpTiedIff(cfg: Config, hits: seq<Hit>)
    requires |hits| > 1
    ensures |Ranked(cfg, hits)| == |hits|
    ensures SortKey(cfg)(Ranked(cfg, hits)[1]) == SortKey(cfg)(Winner(cfg, hits)) <==>
      |Filter(hits, TiedForBest(cfg, hits))| != 1
  {
    var p, ranked := TiedForBest(cfg, hits), Ranked(cfg, hits);
    RunnerUp(cfg, hits);
    RankedTies(cfg, hits);
    TiedIff(cfg, hits, ranked[0]);
    TiedIff(cfg, hits, ranked[1]);
    if p(ranked[1]) {
      TwoKept(ranked, p, 0, 1);
    } else {
      OthersNotTied(cfg, hits);
      OneKept(ranked, p, 0);
    }
  }

  lemma OthersNotTied(cfg: Config, hits: seq<Hit>)
    requires |hits| > 1 && |Ranked(cfg, hits)| == |hits| && !TiedForBest(cfg, hits)(Ranked(cfg, hits)[1])
    ensures forall j :: 0 < j < |hits| ==> !TiedForBest(cfg, hits)(Ranked(cfg, hits)[j])
  {
    var ranked := Ranked(cfg, hits);
    RunnerUp(cfg, hits);
    KeyOrder();
    TiedIff(cfg, hits, ranked[1]);
    forall j | 0 < j < |hits| ensures !TiedForBest(cfg, hits)(ranked[j]) {
      TiedIff(cfg, hits, ranked[j]);
    }
  }

  /** The named component is strictly in the winner's favour exactly when some hit has a key before that of
      every other, which is when winner and runner-up differ; otherwise the record id is the reason given. */
  lemma ReasonIsStrictIff(cfg: Config, hits: seq<Hit>)
    requires |hits| > 1
    ensures |Ranked(cfg, hits)| == |hits|
    ensures var w, r := SortKey(cfg)(Winner(cfg, hits)), SortKey(cfg)(Ranked(cfg, hits)[1]);
      && (KeyLess(w, r) <==> SingleBest(cfg, hits))
      && (w != r <==> SingleBest(cfg, hits))
      && (ReasonFor(cfg, hits) == DeterministicRecordId ==>
            (StrLe(w.recordId, r.recordId) && !StrLe(r.recordId, w.recordId) <==> SingleBest(cfg, hits)))
      && (!SingleBest(cfg, hits) ==> ReasonFor(cfg, hits) == DeterministicRecordId)
  {
    ReasonNamesFirstDifference(cfg, hits);
    KeyOrder();
    RunnerUp(cfg, hits);
    SingleBestIff(cfg, hits);
    RunnerUpTiedIff(cfg, hits);
    var w, r := SortKey(cfg)(Winner(cfg, hits)), SortKey(cfg)(Ranked(cfg, hits)[1]);
    StrLeTotal(w.recordId, r.recordId);
  }

  /** Two hits of one record, say without an id, are decided by their order, and the code still claims the
      record id made the difference. */
  lemma SameRecordTie(cfg: Config, a: Hit, b: Hit)
    requires a.record == b.record
    ensures Winner(cfg, [a, b]) == a && Winner(cfg, [b, a]) == b
    ensures ReasonFor(cfg, [a, b]) == DeterministicRecordId
  {
    KeyOrder();
    RankedPair(cfg, a, b);
    RankedPair(cfg, b, a);
  }

  lemma RankedPair(cfg: Config, a: Hit, b: Hit)
    requires KeyLe(SortKey(cfg)(a), SortKey(cfg)(b))
    ensures Ranked(cfg, [a, b]) == [a, b]
  {
    KeyOrder();
    S.SortFixed([a, b], SortKey(cfg), KeyLe);
  }

  /* ----- in terms of the records ----- */

  /** An instant may be written with `Z`, with a zero offset or without an offset. */
  lemma TimestampForms(cfg: Config, local: string)
    requires |local| >= 10 && local[|local| - 1] != 'Z' && '+' !in local[10..] && '-' !in local[10..]
    ensures ParseIsoZ(cfg, Some(local)) == ParseIsoZ(cfg, Some(local + "Z")) == ParseIsoZ(cfg, Some(local + "+00:00"))
    ensures ParseIsoZ(cfg, Some(local)) ==
      match cfg.fromIso(local + "+00:00") case Some(seconds) => seconds case None => 0.0
  {
    var z, offset := local + "Z", local + "+00:00";
    assert z[..|z| - 1] == local;
    assert offset[|local|] == '+' && offset[|offset| - 1] == '0';
    if |offset| > 10 {
      assert offset[10..][|local| - 10] == '+';
    }
    assert |local| == 10 ==> local[10..] == "";
  }

  /** No time stamp, an empty one and an unreadable one are the epoch; one with an offset is read as it is. */
  lemma OtherTimestamps(cfg: Config, text: string)
    ensures ParseIsoZ(cfg, None) == 0.0 && ParseIsoZ(cfg, Some("")) == 0.0
    ensures
      && text != "" && text[|text| - 1] != 'Z'
      && (exists i :: 10 <= i < |text| && (text[i] == '+' || text[i] == '-')) ==>
        ParseIsoZ(cfg, Some(text)) == match cfg.fromIso(text) case Some(seconds) => seconds case None => 0.0
  {
    if i :| 10 <= i < |text| && (text[i] == '+' || text[i] == '-') {
      assert text[10..][i - 10] == text[i];
    }
  }

  /** The winner's record against that of any hit of the group: no smaller authority; among equals no smaller
      confidence; then no older time stamp; then no later source; then no later id. */
  lemma WinnerByFields(cfg: Config, hits: seq<Hit>, h: Hit, w: Record, o: Record)
    requires h in hits && h.record == Some(o) && Winner(cfg, hits).record == Some(w)
    ensures
      var wa := if w.authority == None then cfg.defaultAuthority else w.authority.value;
      var oa := if o.authority == None then cfg.defaultAuthority else o.authority.value;
      var wc := if w.confidence == None then cfg.defaultConfidence else w.confidence.value;
      var oc := if o.confidence == None then cfg.defaultConfidence else o.confidence.value;
      var (wt, ot) := (ParseIsoZ(cfg, w.timestamp), ParseIsoZ(cfg, o.timestamp));
      var wp := if w.source == None || w.source.value == "" then cfg.sourceCount + 1000
        else cfg.priorityIndex(w.source.value);
      var op := if o.source == None || o.source.value == "" then cfg.sourceCount + 1000
        else cfg.priorityIndex(o.source.value);
      var wi := if w.id == None then "" else w.id.value;
      var oi := if o.id == None then "" else o.id.value;
      && wa >= oa
      && (wa == oa ==> wc >= oc)
      && (wa == oa && wc == oc ==> wt >= ot)
      && (wa == oa && wc == oc && wt == ot ==> wp <= op)
      && (wa == oa && wc == oc && wt == ot && wp == op ==> StrLe(wi, oi))
  {
    WinnerIsLeast(cfg, hits, h);
  }

  /** What each reason says about the records of the winner and the runner-up. */
  lemma ReasonByFields(cfg: Config, hits: seq<Hit>, w: Record, r: Record)
    requires |hits| > 1 && |Ranked(cfg, hits)| == |hits|
    requires Winner(cfg, hits).record == Some(w) && Ranked(cfg, hits)[1].record == Some(r)
    ensures
      var wa := if w.authority == None then cfg.defaultAuthority else w.authority.value;
      var ra := if r.authority == None then cfg.defaultAuthority else r.authority.value;
      var wc := if w.confidence == None then cfg.defaultConfidence else w.confidence.value;
      var rc := if r.confidence == None then cfg.defaultConfidence else r.confidence.value;
      var (wt, rt) := (ParseIsoZ(cfg, w.timestamp), ParseIsoZ(cfg, r.timestamp));
      var wp := if w.source == None || w.source.value == "" then cfg.sourceCount + 1000
        else cfg.priorityIndex(w.source.value);
      var rp := if r.source == None || r.source.value == "" then cfg.sourceCount + 1000
        else cfg.priorityIndex(r.source.value);
      && (ReasonFor(cfg, hits) == HigherAuthority <==> wa > ra)
      && (ReasonFor(cfg, hits) == HigherConfidence <==> wa == ra && wc > rc)
      && (ReasonFor(cfg, hits) == NewerRecord <==> wa == ra && wc == rc && wt > rt)
      && (ReasonFor(cfg, hits) == SourcePriority <==> wa == ra && wc == rc && wt == rt && wp < rp)
      && (ReasonFor(cfg, hits) == DeterministicRecordId <==> wa == ra && wc == rc && wt == rt && wp == rp)
  {
    RunnerUp(cfg, hits);
  }

  /** The hits of an entity are those whose record names it; the empty name counts as none. */
  lemma GroupByField(xs: seq<Hit>, e: string, h: Hit)
    ensures h in HitsOf(e, xs) <==>
      h in xs && e != "" && h.record != None && h.record.value.entityId == Some(e)
    ensures h in Filter(xs, NoEntity) <==>
      h in xs && (h.record == None || h.record.value.entityId == None || h.record.value.entityId == Some(""))
  {
    FilterMember(xs, OfEntity(e), h);
    FilterMember(xs, NoEntity, h);
  }

  /** What a decision records: the ids of the group in input order, the id of the winner, and a digest text
      made of the entity, the winner and the sorted ids, a missing id being shown as None. */
  lemma DecisionByFields(cfg: Config, e: string, hits: seq<Hit>) returns (sorted: seq<string>)
    requires hits != []
    ensures var d := DecisionFor(cfg, e, hits);
      && d.winner == Winner(cfg, hits).id && d.reason == ReasonFor(cfg, hits)
      && |d.related| == |hits| && (forall i :: 0 <= i < |hits| ==> d.related[i] == hits[i].id)
      && d.idText == "CONFLICT_RESOLUTION|" + e + "|"
           + (if d.winner == None then "None" else d.winner.value) + "|" + Join(",", sorted)
    ensures |sorted| == |hits| && forall i, j :: 0 <= i < j < |sorted| ==> StrLe(sorted[i], sorted[j])
    ensures multiset(sorted) == multiset(seq(|hits|, i requires 0 <= i < |hits| =>
      if hits[i].id == None then "None" else hits[i].id.value))
  {
    var texts := IdTexts(hits);
    sorted := S.Sort(texts, Itself, StrLe);
    StringOrder();
    S.SortSorted(texts, Itself, StrLe);
    IdsByIndex(hits);
    assert texts == seq(|hits|, i requires 0 <= i < |hits| =>
      if hits[i].id == None then "None" else hits[i].id.value);
    forall i, j | 0 <= i < j < |sorted| ensures StrLe(sorted[i], sorted[j]) {
      assert StrLe(Itself(sorted[i]), Itself(sorted[j]));
    }
  }

  lemma {:induction false} IdsByIndex(hits: seq<Hit>)
    ensures |Ids(hits)| == |IdTexts(hits)| == |hits|
    ensures forall i :: 0 <= i < |hits| ==>
      && Ids(hits)[i] == hits[i].id
      && IdTexts(hits)[i] == if hits[i].id == None then "None" else hits[i].id.value
  {
    if hits != [] {
      IdsByIndex(hits[1..]);
    }
  }

  /* ----- independence of input order ----- */

  lemma WinnerAfterFirst(cfg: Config, h: Hit, rest: seq<Hit>)
    requires forall x :: x in rest ==> KeyLe(SortKey(cfg)(h), SortKey(cfg)(x))
    ensures Winner(cfg, [h] + rest) == h
  {
    KeyOrder();
    var sorted := S.Sort(rest, SortKey(cfg), KeyLe);
    S.SortSorted(rest, SortKey(cfg), KeyLe);
    assert ([h] + rest)[1..] == rest;
    if sorted != [] {
      S.SortMember(rest, SortKey(cfg), KeyLe, sorted[0]);
    }
  }

  /** A hit that shares the least key wins when it comes first. */
  lemma MovedToFront(cfg: Config, hits: seq<Hit>, h: Hit) returns (hs: seq<Hit>)
    requires h in hits && SortKey(cfg)(h) == SortKey(cfg)(Winner(cfg, hits))
    ensures multiset(hs) == multiset(hits) && hs != [] && Winner(cfg, hs) == h
  {
    var i :| 0 <= i < |hits| && hits[i] == h;
    var rest := hits[..i] + hits[i + 1..];
    hs := [h] + rest;
    FrontPermutes(hits, i);
    forall x | x in rest ensures KeyLe(SortKey(cfg)(h), SortKey(cfg)(x)) {
      WinnerIsLeast(cfg, hits, x);
    }
    WinnerAfterFirst(cfg, h, rest);
  }

  lemma FrontPermutes<T>(xs: seq<T>, i: nat)
    requires i < |xs|
    ensures multiset([xs[i]] + (xs[..i] + xs[i + 1..])) == multiset(xs)
  {
    assert xs == xs[..i] + [xs[i]] + xs[i + 1..];
  }

  /** No other hit has a key before that of `h`. */
  predicate Least(cfg: Config, hits: seq<Hit>, h: Hit)
  {
    h in hits && forall x :: x in hits ==> KeyLe(SortKey(cfg)(h), SortKey(cfg)(x))
  }

  /** Different hits never share the least key. */
  predicate SingleLeast(cfg: Config, hits: seq<Hit>)
  {
    forall a, b :: a in hits && b in hits && Least(cfg, hits, a) && Least(cfg, hits, b) ==> a == b
  }

  /** Then only the winner has its key. */
  lemma SingleLeastIff(cfg: Config, hits: seq<Hit>)
    requires hits != []
    ensures SingleLeast(cfg, hits) <==>
      forall h | h in hits :: SortKey(cfg)(h) == SortKey(cfg)(Winner(cfg, hits)) ==> h == Winner(cfg, hits)
  {
    var w := Winner(cfg, hits);
    KeyOrder();
    assert Least(cfg, hits, w) by {
      forall x | x in hits ensures w in hits && KeyLe(SortKey(cfg)(w), SortKey(cfg)(x)) { WinnerIsLeast(cfg, hits, x); }
      WinnerIsLeast(cfg, hits, hits[0]);
    }
    forall h | h in hits ensures Least(cfg, hits, h) <==> SortKey(cfg)(h) == SortKey(cfg)(w) {
      if Least(cfg, hits, h) {
        assert KeyLe(SortKey(cfg)(h), SortKey(cfg)(w)) && KeyLe(SortKey(cfg)(w), SortKey(cfg)(h));
      }
    }
  }

  /** Reordering a group can change its winner exactly when two different hits share the least key. */
  lemma WinnerIgnoresOrderIff(cfg: Config, hits: seq<Hit>)
    requires hits != []
    ensures (forall hs: seq<Hit> | multiset(hs) == multiset(hits) && hs != [] :: Winner(cfg, hs) == Winner(cfg, hits))
            <==> SingleLeast(cfg, hits)
  {
    var w := Winner(cfg, hits);
    SingleLeastIff(cfg, hits);
    if SingleLeast(cfg, hits) {
      forall hs: seq<Hit> | multiset(hs) == multiset(hits) && hs != []
        ensures Winner(cfg, hs) == w
      {
        SameWinner(cfg, hits, hs);
      }
    } else {
      var h :| h in hits && SortKey(cfg)(h) == SortKey(cfg)(w) && h != w;
      var hs := MovedToFront(cfg, hits, h);
    }
  }

  lemma SameWinner(cfg: Config, hits: seq<Hit>, hs: seq<Hit>)
    requires hits != [] && hs != [] && multiset(hs) == multiset(hits)
    requires SingleLeast(cfg, hits)
    ensures Winner(cfg, hs) == Winner(cfg, hits)
  {
    SingleLeastIff(cfg, hits);
    var w, v := Winner(cfg, hits), Winner(cfg, hs);
    KeyOrder();
    WinnerIsLeast(cfg, hits, hits[0]);
    WinnerIsLeast(cfg, hs, hs[0]);
    assert v in multiset(hs) && w in multiset(hits);
    WinnerIsLeast(cfg, hits, v);
    WinnerIsLeast(cfg, hs, w);
  }

  lemma {:induction false} IdTextMultiplicity(xs: seq<Hit>, ys: seq<Hit>)
    requires multiset(xs) == multiset(ys)
    ensures multiset(IdTexts(xs)) == multiset(IdTexts(ys))
  {
    if xs == [] {
      assert |multiset(ys)| == 0;
    } else {
      var i := TakeOut(xs, ys);
      IdTextMultiplicity(xs[1..], ys[..i] + ys[i + 1..]);
      IdTextsAppend(ys[..i], [ys[i]]);
      IdTextsAppend(ys[..i] + [ys[i]], ys[i + 1..]);
      IdTextsAppend(ys[..i], ys[i + 1..]);
    }
  }

  lemma {:induction false} IdTextsAppend(xs: seq<Hit>, ys: seq<Hit>)
    ensures IdTexts(xs + ys) == IdTexts(xs) + IdTexts(ys)
  {
    if xs == [] {
      assert xs + ys == ys;
    } else {
      assert (xs + ys)[1..] == xs[1..] + ys;
      IdTextsAppend(xs[1..], ys);
    }
  }

  lemma {:induction false} CopiesOf(xs: seq<string>, s: string)
    ensures |Filter(xs, S.Ties(Itself, StrLe, s))| == multiset(xs)[s]
    ensures forall t :: t in Filter(xs, S.Ties(Itself, StrLe, s)) ==> t == s
  {
    if xs != [] {
      CopiesOf(xs[1..], s);
      StrLeTotal(xs[0], s);
      StrLeTotal(s, s);
      assert S.Ties(Itself, StrLe, s)(xs[0]) <==> StrLe(s, Itself(xs[0])) && StrLe(Itself(xs[0]), s);
      assert Itself(xs[0]) == xs[0];
      assert S.Ties(Itself, StrLe, s)(xs[0]) <==> xs[0] == s;
      assert xs == [xs[0]] + xs[1..];
      assert multiset(xs) == multiset{xs[0]} + multiset(xs[1..]);
    }
  }

  lemma StringOrder()
    ensures S.TotalPreorder(StrLe)
  {
    forall a, b ensures StrLe(a, b) || StrLe(b, a) { StrLeTotal(a, b); }
    forall a, b, c | StrLe(a, b) && StrLe(b, c) ensures StrLe(a, c) { StrLeTransitive(a, b, c); }
  }

  lemma SameCopies(xs: seq<string>, ys: seq<string>, s: string)
    requires multiset(xs) == multiset(ys)
    ensures Filter(xs, S.Ties(Itself, StrLe, s)) == Filter(ys, S.Ties(Itself, StrLe, s))
  {
    CopiesOf(xs, s);
    CopiesOf(ys, s);
    var a, b := Filter(xs, S.Ties(Itself, StrLe, s)), Filter(ys, S.Ties(Itself, StrLe, s));
    forall i | 0 <= i < |a| ensures a[i] == b[i] {
      assert a[i] in a && b[i] in b;
    }
  }

  lemma SortedTextsIgnoreOrder(xs: seq<string>, ys: seq<string>)
    requires multiset(xs) == multiset(ys)
    ensures S.Sort(xs, Itself, StrLe) == S.Sort(ys, Itself, StrLe)
  {
    StringOrder();
    var sorted := S.Sort(ys, Itself, StrLe);
    S.SortSorted(ys, Itself, StrLe);
    forall s ensures Filter(xs, S.Ties(Itself, StrLe, s)) == Filter(sorted, S.Ties(Itself, StrLe, s)) {
      SameCopies(xs, sorted, s);
    }
    S.SortDetermined(xs, sorted, Itself, StrLe);
  }

  /** Permuting the input changes neither the winner of an entity whose least key is unique nor the text
      its decision id is hashed from. */
  lemma DecisionIgnoresInputOrder(cfg: Config, xs: seq<Hit>, ys: seq<Hit>, e: string)
    requires multiset(xs) == multiset(ys) && HitsOf(e, xs) != []
    requires SingleLeast(cfg, HitsOf(e, xs))
    ensures HitsOf(e, ys) != []
    ensures Winner(cfg, HitsOf(e, ys)) == Winner(cfg, HitsOf(e, xs))
    ensures DecisionFor(cfg, e, HitsOf(e, ys)).idText == DecisionFor(cfg, e, HitsOf(e, xs)).idText
  {
    var a, b := HitsOf(e, xs), HitsOf(e, ys);
    FilterIgnoresOrder(xs, ys, OfEntity(e));
    assert a[0] in multiset(b);
    SameWinner(cfg, a, b);
    IdTextMultiplicity(a, b);
    SortedTextsIgnoreOrder(IdTexts(a), IdTexts(b));
  }

  /* ----- the whole resolution ----- */

  function WinnersOf(cfg: Config, es: seq<string>, xs: seq<Hit>): seq<Hit>
    requires forall e :: e in es ==> HitsOf(e, xs) != []
  {
    if es == [] then []
    else WinnersOf(cfg, es[..|es| - 1], xs) + [Winner(cfg, HitsOf(es[|es| - 1], xs))]
  }

  function Winners(cfg: Config, xs: seq<Hit>): seq<Hit>
  {
    EntitiesExact(xs);
    WinnersOf(cfg, Entities(xs), xs)
  }

  function Resolved(cfg: Config, xs: seq<Hit>): seq<Hit>
  {
    S.Sort(Filter(xs, NoEntity) + Winners(cfg, xs), Score, ScoreDescending)
  }

  lemma WinnerOfEntity(cfg: Config, e: string, xs: seq<Hit>)
    requires HitsOf(e, xs) != []
    ensures Winner(cfg, HitsOf(e, xs)) in xs
    ensures OfEntity(e)(Winner(cfg, HitsOf(e, xs)))
  {
    var hits := HitsOf(e, xs);
    WinnerIsLeast(cfg, hits, hits[0]);
    FilterMember(xs, OfEntity(e), Winner(cfg, hits));
  }

  lemma {:induction false} WinnersAt(cfg: Config, es: seq<string>, xs: seq<Hit>, i: nat)
    requires forall e :: e in es ==> HitsOf(e, xs) != []
    requires i < |es|
    ensures |WinnersOf(cfg, es, xs)| == |es|
    ensures WinnersOf(cfg, es, xs)[i] == Winner(cfg, HitsOf(es[i], xs))
  {
    var before := es[..|es| - 1];
    if before != [] {
      WinnersAt(cfg, before, xs, if i < |before| then i else 0);
    }
  }

  lemma {:induction false} WinnersHaveEntity(cfg: Config, es: seq<string>, xs: seq<Hit>)
    requires forall e :: e in es ==> HitsOf(e, xs) != []
    ensures forall w :: w in WinnersOf(cfg, es, xs) ==> HasEntity(w) && w in xs
  {
    if es != [] {
      WinnersHaveEntity(cfg, es[..|es| - 1], xs);
      WinnerOfEntity(cfg, es[|es| - 1], xs);
    }
  }

  lemma WinnersByKind(cfg: Config, es: seq<string>, xs: seq<Hit>)
    requires forall e :: e in es ==> HitsOf(e, xs) != []
    ensures Filter(WinnersOf(cfg, es, xs), NoEntity) == []
    ensures Filter(WinnersOf(cfg, es, xs), HasEntity) == WinnersOf(cfg, es, xs)
  {
    WinnersHaveEntity(cfg, es, xs);
    FilterNone(WinnersOf(cfg, es, xs), NoEntity);
    FilterAll(WinnersOf(cfg, es, xs), HasEntity);
  }

  /** Every entity of the input has exactly one winner. */
  lemma {:induction false} OneWinnerEach(cfg: Config, es: seq<string>, xs: seq<Hit>, e: string)
    requires forall d :: d in es ==> HitsOf(d, xs) != []
    requires forall i, j :: 0 <= i < j < |es| ==> es[i] != es[j]
    ensures Filter(WinnersOf(cfg, es, xs), OfEntity(e)) == if e in es then [Winner(cfg, HitsOf(e, xs))] else []
  {
    if es != [] {
      var before, last := es[..|es| - 1], es[|es| - 1];
      OneWinnerEach(cfg, before, xs, e);
      WinnerOfEntity(cfg, last, xs);
      FilterLast(WinnersOf(cfg, before, xs), Winner(cfg, HitsOf(last, xs)), OfEntity(e));
      NotBefore(es);
    }
  }

  lemma NotBefore(es: seq<string>)
    requires es != [] && forall i, j :: 0 <= i < j < |es| ==> es[i] != es[j]
    ensures es[|es| - 1] !in es[..|es| - 1]
    ensures forall e :: e in es <==> e in es[..|es| - 1] || e == es[|es| - 1]
  {
    assert es == es[..|es| - 1] + [es[|es| - 1]];
  }

  lemma ScoreOrder()
    ensures S.TotalPreorder(ScoreDescending)
  {
  }

  lemma OthersHaveNoEntity(xs: seq<Hit>, e: string)
    ensures Filter(Filter(xs, NoEntity), OfEntity(e)) == []
    ensures Filter(Filter(xs, NoEntity), NoEntity) == Filter(xs, NoEntity)
    ensures Filter(Filter(xs, NoEntity), HasEntity) == []
  {
    var others := Filter(xs, NoEntity);
    forall h | h in others ensures NoEntity(h) { FilterMember(xs, NoEntity, h); }
    FilterNone(others, OfEntity(e));
    FilterNone(others, HasEntity);
    FilterAll(others, NoEntity);
  }

  lemma FilterResolved(cfg: Config, xs: seq<Hit>, p: Hit -> bool)
    ensures Filter(Resolved(cfg, xs), p)
            == S.Sort(Filter(Filter(xs, NoEntity), p) + Filter(Winners(cfg, xs), p), Score, ScoreDescending)
  {
    ScoreOrder();
    S.SortFilter(Filter(xs, NoEntity) + Winners(cfg, xs), p, Score, ScoreDescending);
    FilterAppend(Filter(xs, NoEntity), Winners(cfg, xs), p);
  }

  lemma WinnersOfGroup(cfg: Config, xs: seq<Hit>, e: string)
    ensures Filter(Winners(cfg, xs), OfEntity(e)) == if HitsOf(e, xs) == [] then [] else [Winner(cfg, HitsOf(e, xs))]
  {
    EntitiesExact(xs);
    OneWinnerEach(cfg, Entities(xs), xs, e);
  }

  /** The output holds, for each entity of the input, its winner once and nothing else of that entity. */
  lemma ResolvedGroup(cfg: Config, xs: seq<Hit>, e: string)
    ensures HitsOf(e, Resolved(cfg, xs)) == if HitsOf(e, xs) == [] then [] else [Winner(cfg, HitsOf(e, xs))]
  {
    WinnersOfGroup(cfg, xs, e);
    OthersHaveNoEntity(xs, e);
    FilterResolved(cfg, xs, OfEntity(e));
    var ws := Filter(Winners(cfg, xs), OfEntity(e));
    assert Filter(Filter(xs, NoEntity), OfEntity(e)) + ws == ws;
    if ws != [] {
      S.SortOne(ws[0], Score, ScoreDescending);
    }
  }

  /** The hits without an entity all survive; both kinds of hit come out in order of falling score. */
  lemma ResolvedKinds(cfg: Config, xs: seq<Hit>)
    ensures Filter(Resolved(cfg, xs), NoEntity) == S.Sort(Filter(xs, NoEntity), Score, ScoreDescending)
    ensures Filter(Resolved(cfg, xs), HasEntity) == S.Sort(Winners(cfg, xs), Score, ScoreDescending)
  {
    EntitiesExact(xs);
    WinnersByKind(cfg, Entities(xs), xs);
    OthersHaveNoEntity(xs, "");
    FilterResolved(cfg, xs, NoEntity);
    FilterResolved(cfg, xs, HasEntity);
    assert Filter(xs, NoEntity) + [] == Filter(xs, NoEntity);
    assert [] + Winners(cfg, xs) == Winners(cfg, xs);
  }

  lemma ResolvedShape(cfg: Config, xs: seq<Hit>)
    ensures S.Sorted(Resolved(cfg, xs), Score, ScoreDescending)
    ensures |Resolved(cfg, xs)| == |Filter(xs, NoEntity)| + |Entities(xs)|
  {
    ScoreOrder();
    EntitiesExact(xs);
    S.SortSorted(Filter(xs, NoEntity) + Winners(cfg, xs), Score, ScoreDescending);
    if Entities(xs) != [] {
      WinnersAt(cfg, Entities(xs), xs, 0);
    }
  }

  /** The scores of the output never rise; a missing score is zero. */
  lemma ResolvedFalls(cfg: Config, xs: seq<Hit>, i: nat, j: nat)
    requires i < j < |Resolved(cfg, xs)|
    ensures var (a, b) := (Resolved(cfg, xs)[i].score, Resolved(cfg, xs)[j].score);
      (if a == None then 0.0 else a.value) >= (if b == None then 0.0 else b.value)
  {
    ResolvedShape(cfg, xs);
    assert ScoreDescending(Score(Resolved(cfg, xs)[i]), Score(Resolved(cfg, xs)[j]));
  }

  /** When no entity repeats, each hit that has one is the winner of its group. */
  lemma {:induction false} SingletonsWin(cfg: Config, prefix: seq<Hit>, ys: seq<Hit>)
    requires prefix <= ys
    requires forall h | h in ys && HasEntity(h) :: HitsOf(Entity(h), ys) == [h]
    ensures forall e :: e in Entities(prefix) ==> HitsOf(e, ys) != []
    ensures WinnersOf(cfg, Entities(prefix), ys) == Filter(prefix, HasEntity)
  {
    EntitiesExact(prefix);
    if prefix != [] {
      var before, last := prefix[..|prefix| - 1], prefix[|prefix| - 1];
      SingletonsWin(cfg, before, ys);
      FilterAppend(before, [last], HasEntity);
      assert prefix == before + [last];
      assert last == ys[|prefix| - 1] && last in ys;
      if HasEntity(last) {
        OnceOnly(before, last, ys);
        WinnerOfOne(cfg, last);
      }
    }
  }

  lemma WinnerOfOne(cfg: Config, h: Hit)
    ensures Winner(cfg, [h]) == h
  {
    WinnerIsLeast(cfg, [h], h);
  }

  lemma OnceOnly(before: seq<Hit>, last: Hit, ys: seq<Hit>)
    requires HasEntity(last) && before + [last] <= ys && HitsOf(Entity(last), ys) == [last]
    ensures Entity(last) !in Entities(before)
  {
    var p := OfEntity(Entity(last));
    var rest := ys[|before| + 1..];
    assert ys == before + [last] + rest;
    FilterAppend(before + [last], rest, p);
    FilterAppend(before, [last], p);
    EntitiesExact(before);
  }

  lemma SingleMember(xs: seq<Hit>, e: string, h: Hit)
    requires h in xs && OfEntity(e)(h) && |HitsOf(e, xs)| <= 1
    ensures HitsOf(e, xs) == [h]
  {
    FilterMember(xs, OfEntity(e), h);
  }

  /** Resolving an already resolved list returns the same hits in the same order, and every decision
      attached the second time is that there was no conflict. */
  lemma ResolveIsIdempotent(cfg: Config, xs: seq<Hit>)
    ensures Resolved(cfg, Resolved(cfg, xs)) == Resolved(cfg, xs)
    ensures forall h | h in Resolved(cfg, xs) && HasEntity(h) ::
      && HitsOf(Entity(h), Resolved(cfg, xs)) == [h]
      && ReasonFor(cfg, [h]) == NoConflict
  {
    var ys := Resolved(cfg, xs);
    forall h | h in ys && HasEntity(h)
      ensures HitsOf(Entity(h), ys) == [h] && ReasonFor(cfg, [h]) == NoConflict
    {
      ResolvedGroup(cfg, xs, Entity(h));
      SingleMember(ys, Entity(h), h);
      ReasonNamesFirstDifference(cfg, [h]);
    }
    ResolvedKinds(cfg, xs);
    SingletonsWin(cfg, ys, ys);
    ScoreOrder();
    S.SortOfSorts(Filter(xs, NoEntity), Winners(cfg, xs), Score, ScoreDescending);
  }

  /** Whether `h` wins its group among `xs`. */
  predicate Wins(cfg: Config, h: Hit, xs: seq<Hit>)
  {
    HasEntity(h) && HitsOf(Entity(h), xs) != [] && h == Winner(cfg, HitsOf(Entity(h), xs))
  }

  /** The grouping loop; `order` is the insertion order of the Python dict. */
  method GroupByEntity(results: seq<Hit>)
    returns (order: seq<string>, groups: map<string, seq<Hit>>, others: seq<Hit>)
    ensures order == Entities(results)
    ensures others == Filter(results, NoEntity)
    ensures forall e :: e in groups <==> e in order
    ensures forall e :: e in groups ==> groups[e] == HitsOf(e, results)
  {
    order, groups, others := [], map[], [];
    for i := 0 to |results|
      invariant order == Entities(results[..i])
      invariant others == Filter(results[..i], NoEntity)
      invariant forall e :: e in groups <==> e in order
      invariant forall e :: e in groups ==> groups[e] == HitsOf(e, results[..i])
    {
      var r := results[i];
      PrefixStep(results, i);
      FilterLast(results[..i], r, NoEntity);
      HitsOfLast(results[..i], r);
      if HasEntity(r) {
        var e := Entity(r);
        if e !in groups {
          EntitiesExact(results[..i]);
          order, groups := order + [e], groups[e := []];
        }
        groups := groups[e := groups[e] + [r]];
      } else {
        others := others + [r];
      }
    }
    assert results[..|results|] == results;
  }

  method AttachDecision(cfg: Config, e: string, hits: seq<Hit>) returns (winner: Hit)
    requires hits != []
    modifies Winner(cfg, hits)
    ensures winner == Winner(cfg, hits) && winner.governance == Some(DecisionFor(cfg, e, hits))
  {
    winner := Winner(cfg, hits);
    winner.governance := Some(DecisionFor(cfg, e, hits));
  }

  /** The decision on `h` once the groups in `done` are resolved. */
  function DecisionOn(cfg: Config, h: Hit, done: seq<string>, xs: seq<Hit>, before: Option<Decision>): Option<Decision>
  {
    if Entity(h) in done && Wins(cfg, h, xs) then Some(DecisionFor(cfg, Entity(h), HitsOf(Entity(h), xs))) else before
  }

  lemma DecideOneMore(cfg: Config, done: seq<string>, e: string, xs: seq<Hit>, h: Hit, before: Option<Decision>)
    requires HitsOf(e, xs) != [] && e !in done
    ensures var w := Winner(cfg, HitsOf(e, xs));
      && w in xs
      && DecisionOn(cfg, h, done + [e], xs, before) ==
           if h == w then Some(DecisionFor(cfg, e, HitsOf(e, xs))) else DecisionOn(cfg, h, done, xs, before)
  {
    WinnerOfEntity(cfg, e, xs);
  }

  /** `resolve_conflicts`: groups, picks winners, attaches the decisions to them and sorts by score. */
  method ResolveConflicts(cfg: Config, results: seq<Hit>) returns (combined: seq<Hit>)
    modifies results
    ensures combined == Resolved(cfg, results)
    ensures forall h | h in results && !Wins(cfg, h, results) :: h.governance == old(h.governance)
    ensures forall h | h in results && Wins(cfg, h, results) ::
              h.governance == Some(DecisionFor(cfg, Entity(h), HitsOf(Entity(h), results)))
  {
    var order, groups, others := GroupByEntity(results);
    EntitiesExact(results);
    var winners := AttachDecisions(cfg, order, groups, results);
    combined := S.Sort(others + winners, Score, ScoreDescending);
  }

  /** Every hit carries the decision it should once the groups in `done` are resolved. */
  ghost predicate Decided(cfg: Config, done: seq<string>, xs: seq<Hit>, before: map<Hit, Option<Decision>>)
    reads xs
  {
    forall h | h in xs :: h in before && h.governance == DecisionOn(cfg, h, done, xs, before[h])
  }

  /** One round of the loop over the groups. */
  method DecideGroup(cfg: Config, e: string, hits: seq<Hit>, ghost done: seq<string>, ghost results: seq<Hit>,
                     ghost before: map<Hit, Option<Decision>>) returns (winner: Hit)
    requires hits == HitsOf(e, results) != [] && e !in done
    requires Decided(cfg, done, results, before)
    modifies results
    ensures winner == Winner(cfg, hits)
    ensures Decided(cfg, done + [e], results, before)
  {
    WinnerOfEntity(cfg, e, results);
    forall h | h in results
      ensures DecisionOn(cfg, h, done + [e], results, before[h]) ==
        if h == Winner(cfg, hits) then Some(DecisionFor(cfg, e, hits)) else h.governance
    {
      DecideOneMore(cfg, done, e, results, h, before[h]);
    }
    winner := AttachDecision(cfg, e, hits);
  }

  /** The loop over the groups. */
  method AttachDecisions(cfg: Config, order: seq<string>, groups: map<string, seq<Hit>>, ghost results: seq<Hit>)
    returns (winners: seq<Hit>)
    requires forall i, j :: 0 <= i < j < |order| ==> order[i] != order[j]
    requires forall e :: e in order ==> e in groups && groups[e] == HitsOf(e, results) != []
    modifies results
    ensures winners == WinnersOf(cfg, order, results)
    ensures forall h | h in results :: h.governance == DecisionOn(cfg, h, order, results, old(h.governance))
  {
    winners := [];
    ghost var before := map h: Hit | h in results :: h.governance;
    for i := 0 to |order|
      invariant winners == WinnersOf(cfg, order[..i], results)
      invariant Decided(cfg, order[..i], results, before)
    {
      PrefixStep(order, i);
      var winner := DecideGroup(cfg, order[i], groups[order[i]], order[..i], results, before);
      winners := winners + [winner];
    }
    assert order[..|order|] == order;
  }

  lemma ResolvedMembers(cfg: Config, xs: seq<Hit>)
    ensures forall h :: h in Resolved(cfg, xs) ==> h in xs
  {
    forall h | h in Resolved(cfg, xs) ensures h in xs {
      ScoreOrder();
      EntitiesExact(xs);
      S.SortMember(Filter(xs, NoEntity) + Winners(cfg, xs), Score, ScoreDescending, h);
      FilterMember(xs, NoEntity, h);
      WinnersHaveEntity(cfg, Entities(xs), xs);
    }
  }

  /** Resolving twice: the second call returns the same hits in the same order and only turns the decision on
      each winner into one without conflict. */
  method ResolveTwice(cfg: Config, results: seq<Hit>) returns (first: seq<Hit>, second: seq<Hit>)
    modifies results
    ensures first == Resolved(cfg, results) && second == first
    ensures forall h | h in second && HasEntity(h) ::
      h.governance == Some(DecisionFor(cfg, Entity(h), [h])) && h.governance.value.reason == NoConflict
    ensures forall h | h in results && h !in second :: h.governance == old(h.governance)
  {
    first := ResolveConflicts(cfg, results);
    ResolvedMembers(cfg, results);
    forall h | h in results && Wins(cfg, h, results) ensures h in first {
      WinnerStays(cfg, results, h);
    }
    assert forall i :: 0 <= i < |first| ==> first[i] in first && first[i] in results;
    second := ResolveConflicts(cfg, first);
    ResolveIsIdempotent(cfg, results);
    forall h | h in first && HasEntity(h)
      ensures Wins(cfg, h, first) && DecisionFor(cfg, Entity(h), [h]).reason == NoConflict
    {
      WinnerOfEntity(cfg, Entity(h), first);
      WinnerOfOne(cfg, h);
    }
  }

  lemma WinnerStays(cfg: Config, xs: seq<Hit>, h: Hit)
    requires Wins(cfg, h, xs)
    ensures h in Resolved(cfg, xs)
  {
    ResolvedGroup(cfg, xs, Entity(h));
    FilterMember(Resolved(cfg, xs), OfEntity(Entity(h)), h);
    assert h in HitsOf(Entity(h), Resolved(cfg, xs));
  }
}
