/** The passive governance validator (plugins/memory/governance_validator.py). */
module GovernanceValidator {
  import opened Sequences
  import opened Retrievals
  import Text

  datatype Severity = Info | Warning | Error

  function Level(s: Severity): nat
  {
    match s case Info => 0 case Warning => 1 case Error => 2
  }

  datatype Kind =
    | LowTrust | TooOld | InvalidTimestamp | ProviderNotAllowed | ProviderDenied
    | MissingProvenance | PrivacyBlock | CategoryBlocked

  /** A reason code: its kind, and after `missing_provenance:` the names of the missing fields. */
  datatype Reason = Reason(kind: Kind, fields: string)

  /** What the summary counts: the kept blocks, or one reason code. */
  datatype SummaryKey = Kept | Because(reason: Reason)

  datatype Rule = Rule(scoreAdjust: Option<real>, blockFlag: bool, redact: seq<string>, note: string)

  /** A compiled privacy regex: its text and what it matches. */
  datatype Pattern = Pattern(text: string, matches: string -> bool)

  datatype Policy = Policy(
    minTrust: real,
    maxAgeDays: Option<real>,
    allowlist: Option<seq<string>>,
    denylist: seq<string>,
    requiredFields: seq<string>,
    patterns: seq<Pattern>,
    blockedCategories: seq<string>,
    rules: map<Kind, Rule>)

  datatype Details = Details(
    derivedTrust: real,
    ageDays: Option<real>,
    missing: seq<string>,
    privacyMatches: seq<string>,
    category: Option<string>)

  datatype Hint = Hint(scoreAdjust: Option<real>, redact: seq<string>, blockFlag: bool, note: string)

  const NO_HINT := Hint(None, [], false, "")

  datatype Annotation = Annotation(
    chunkId: string,
    provider: string,
    kept: bool,
    reasons: seq<Reason>,
    severity: Severity,
    details: Details,
    hint: Option<Hint>)

  datatype AuditEntry = AuditEntry(chunkId: string, provider: string, reasons: seq<Reason>, details: Details)

  datatype Report = Report(total: nat, warnings: seq<AuditEntry>, summary: map<SummaryKey, nat>)

  datatype ReportV2 = ReportV2(total: nat, annotations: seq<Annotation>, summary: map<SummaryKey, nat>)

  /* ----- reason codes ----- */

  /** The severities of REASON_CODE_CATALOG for the codes the validator emits. */
  function CatalogSeverity(kind: Kind): Severity
  {
    match kind
    case LowTrust => Warning
    case TooOld => Warning
    case InvalidTimestamp => Warning
    case ProviderNotAllowed => Error
    case ProviderDenied => Error
    case MissingProvenance => Warning
    case PrivacyBlock => Error
    case CategoryBlocked => Warning
  }

  function SeverityOfReason(reason: Reason): Severity
  {
    CatalogSeverity(reason.kind)
  }

  /** The highest catalogue severity among the reasons. */
  function MaxSeverity(reasons: seq<Reason>): Severity
  {
    if reasons == [] then Info
    else
      var rest, first := MaxSeverity(reasons[1..]), SeverityOfReason(reasons[0]);
      if Level(first) > Level(rest) then first else rest
  }

  lemma {:induction false} MaxSeverityBounds(reasons: seq<Reason>)
    ensures forall r :: r in reasons ==> Level(SeverityOfReason(r)) <= Level(MaxSeverity(reasons))
    ensures MaxSeverity(reasons) == Info || exists r :: r in reasons && SeverityOfReason(r) == MaxSeverity(reasons)
  {
    if reasons != [] {
      MaxSeverityBounds(reasons[1..]);
      assert reasons[0] in reasons;
      assert forall r :: r in reasons[1..] ==> r in reasons;
    }
  }

  /** The severity loop: it may stop at the first error and still returns the maximum. */
  method DeriveSeverity(reasons: seq<Reason>) returns (severity: Severity)
    ensures severity == MaxSeverity(reasons)
  {
    MaxSeverityBounds(reasons);
    severity := Info;
    for i := 0 to |reasons|
      invariant severity != Error
      invariant forall j :: 0 <= j < i ==> Level(SeverityOfReason(reasons[j])) <= Level(severity)
      invariant severity == Info || exists r :: r in reasons && SeverityOfReason(r) == severity
    {
      var sev := CatalogSeverity(reasons[i].kind);
      assert reasons[i] in reasons && SeverityOfReason(reasons[i]) == sev;
      if sev == Error {
        return Error;
      }
      if sev == Warning && severity != Error {
        severity := Warning;
      }
    }
  }

  /* ----- judging one retrieval ----- */

  function ProviderOf(r: Retrieval): string
  {
    TextOr(r.provider, "unknown")
  }

  function DerivedTrust(overrides: map<string, real>, r: Retrieval): real
  {
    var factor := if ProviderOf(r) in overrides then overrides[ProviderOf(r)] else 1.0;
    var t := RealOr(r.trust, 1.0) * factor;
    if t < 0.0 then 0.0 else if t > 1.0 then 1.0 else t
  }

  /** `age` gives the days between a timestamp and now, None when it cannot be parsed. */
  function AgeReasons(p: Policy, age: string -> Option<real>, r: Retrieval): seq<Reason>
  {
    if TextOr(r.createdAt, "") == "" then []
    else match age(r.createdAt.value)
      case None => [Plain(InvalidTimestamp)]
      case Some(days) => if p.maxAgeDays != None && days > p.maxAgeDays.value then [Plain(TooOld)] else []
  }

  function MissingFields(required: seq<string>, meta: map<string, string>): seq<string>
  {
    if required == [] then []
    else (if required[0] in meta then [] else [required[0]]) + MissingFields(required[1..], meta)
  }

  function PrivacyMatches(patterns: seq<Pattern>, content: string): seq<string>
  {
    if patterns == [] then []
    else (if patterns[0].matches(content) then [patterns[0].text] else []) + PrivacyMatches(patterns[1..], content)
  }

  function Plain(kind: Kind): Reason
  {
    Reason(kind, "")
  }

  function BlockedCategory(p: Policy, r: Retrieval): Option<string>
  {
    if "category" in r.meta && r.meta["category"] != "" && r.meta["category"] in p.blockedCategories
    then Some(r.meta["category"]) else None
  }

  function TrustReasons(p: Policy, overrides: map<string, real>, r: Retrieval): seq<Reason>
  {
    if DerivedTrust(overrides, r) < p.minTrust then [Plain(LowTrust)] else []
  }

  function ProviderReasons(p: Policy, r: Retrieval): seq<Reason>
  {
    (if p.allowlist != None && ProviderOf(r) !in p.allowlist.value then [Plain(ProviderNotAllowed)] else [])
    + if ProviderOf(r) in p.denylist then [Plain(ProviderDenied)] else []
  }

  function ProvenanceReasons(p: Policy, r: Retrieval): seq<Reason>
  {
    var missing := MissingFields(p.requiredFields, r.meta);
    if missing != [] then [Reason(MissingProvenance, Text.Join(",", missing))] else []
  }

  function PrivacyReasons(p: Policy, r: Retrieval): seq<Reason>
  {
    seq(|PrivacyMatches(p.patterns, TextOr(r.content, ""))|, _ => Plain(PrivacyBlock))
  }

  function CategoryReasons(p: Policy, r: Retrieval): seq<Reason>
  {
    if BlockedCategory(p, r) != None then [Plain(CategoryBlocked)] else []
  }

  function ReasonsFor(p: Policy, overrides: map<string, real>, age: string -> Option<real>, r: Retrieval): seq<Reason>
  {
    TrustReasons(p, overrides, r) + AgeReasons(p, age, r) + ProviderReasons(p, r) + ProvenanceReasons(p, r)
    + PrivacyReasons(p, r) + CategoryReasons(p, r)
  }

  function DetailsFor(p: Policy, overrides: map<string, real>, age: string -> Option<real>, r: Retrieval): Details
  {
    Details(
      DerivedTrust(overrides, r),
      if TextOr(r.createdAt, "") == "" then None else age(r.createdAt.value),
      MissingFields(p.requiredFields, r.meta),
      PrivacyMatches(p.patterns, TextOr(r.content, "")),
      BlockedCategory(p, r))
  }

  /* ----- when a reason is given ----- */

  lemma {:induction false} MissingFieldsIff(required: seq<string>, meta: map<string, string>, field: string)
    ensures field in MissingFields(required, meta) <==> field in required && field !in meta
  {
    if required != [] {
      MissingFieldsIff(required[1..], meta, field);
    }
  }

  lemma {:induction false} PrivacyMatchesIff(patterns: seq<Pattern>, content: string)
    ensures PrivacyMatches(patterns, content) != [] <==> exists p :: p in patterns && p.matches(content)
  {
    if patterns != [] {
      PrivacyMatchesIff(patterns[1..], content);
      assert patterns == [patterns[0]] + patterns[1..];
    }
  }

  function Matching(content: string): Pattern -> bool
  {
    (p: Pattern) => p.matches(content)
  }

  function Lacking(meta: map<string, string>): string -> bool
  {
    field => field !in meta
  }

  /** There is one privacy reason for each matching pattern, and the missing fields keep the policy's order. */
  lemma {:induction false} OneReasonPerPattern(patterns: seq<Pattern>, content: string)
    ensures |PrivacyMatches(patterns, content)| == |Filter(patterns, Matching(content))|
  {
    if patterns != [] {
      OneReasonPerPattern(patterns[1..], content);
    }
  }

  lemma {:induction false} MissingInOrder(required: seq<string>, meta: map<string, string>)
    ensures MissingFields(required, meta) == Filter(required, Lacking(meta))
  {
    if required != [] {
      MissingInOrder(required[1..], meta);
    }
  }

  /** The six groups of reasons, one after the other. */
  lemma ReasonsInTurn(p: Policy, overrides: map<string, real>, age: string -> Option<real>, r: Retrieval, kind: Kind)
    ensures Mentions(ReasonsFor(p, overrides, age, r), kind) <==>
      || Mentions(TrustReasons(p, overrides, r), kind) || Mentions(AgeReasons(p, age, r), kind)
      || Mentions(ProviderReasons(p, r), kind) || Mentions(ProvenanceReasons(p, r), kind)
      || Mentions(PrivacyReasons(p, r), kind) || Mentions(CategoryReasons(p, r), kind)
  {
    MentionsOfSix(TrustReasons(p, overrides, r), AgeReasons(p, age, r), ProviderReasons(p, r),
                  ProvenanceReasons(p, r), PrivacyReasons(p, r), CategoryReasons(p, r), kind);
  }

  lemma MentionsOfSix(a: seq<Reason>, b: seq<Reason>, c: seq<Reason>, d: seq<Reason>, e: seq<Reason>, f: seq<Reason>,
                      kind: Kind)
    ensures Mentions(a + b + c + d + e + f, kind) <==>
      || Mentions(a, kind) || Mentions(b, kind) || Mentions(c, kind)
      || Mentions(d, kind) || Mentions(e, kind) || Mentions(f, kind)
  {
    MentionsAppend(a, b, kind);
    MentionsAppend(a + b, c, kind);
    MentionsAppend(a + b + c, d, kind);
    MentionsAppend(a + b + c + d, e, kind);
    MentionsAppend(a + b + c + d + e, f, kind);
  }

  /** Each group gives reasons of its own kinds only. */
  lemma GroupKinds(p: Policy, overrides: map<string, real>, age: string -> Option<real>, r: Retrieval)
    ensures forall x :: x in TrustReasons(p, overrides, r) ==> x.kind == LowTrust
    ensures forall x :: x in AgeReasons(p, age, r) ==> x.kind == TooOld || x.kind == InvalidTimestamp
    ensures forall x :: x in ProviderReasons(p, r) ==> x.kind == ProviderNotAllowed || x.kind == ProviderDenied
    ensures forall x :: x in ProvenanceReasons(p, r) ==> x.kind == MissingProvenance
    ensures forall x :: x in PrivacyReasons(p, r) ==> x.kind == PrivacyBlock
    ensures forall x :: x in CategoryReasons(p, r) ==> x.kind == CategoryBlocked
  {
  }

  /** So a reason of a kind comes from the group of the kind. */
  lemma ReasonOfKind(p: Policy, overrides: map<string, real>, age: string -> Option<real>, r: Retrieval, kind: Kind)
    ensures Mentions(ReasonsFor(p, overrides, age, r), kind) <==> Mentions(
      match kind
      case LowTrust => TrustReasons(p, overrides, r)
      case TooOld => AgeReasons(p, age, r)
      case InvalidTimestamp => AgeReasons(p, age, r)
      case ProviderNotAllowed => ProviderReasons(p, r)
      case ProviderDenied => ProviderReasons(p, r)
      case MissingProvenance => ProvenanceReasons(p, r)
      case PrivacyBlock => PrivacyReasons(p, r)
      case CategoryBlocked => CategoryReasons(p, r), kind)
  {
    ReasonsInTurn(p, overrides, age, r, kind);
    GroupKinds(p, overrides, age, r);
  }

  lemma MentionsAppend(a: seq<Reason>, b: seq<Reason>, kind: Kind)
    ensures Mentions(a + b, kind) <==> Mentions(a, kind) || Mentions(b, kind)
  {
    if r :| r in a && r.kind == kind {
      assert r in a + b;
    }
    if r :| r in b && r.kind == kind {
      assert r in a + b;
    }
  }

  lemma MentionsOne(reasons: seq<Reason>, only: Kind, kind: Kind)
    requires forall r :: r in reasons ==> r.kind == only
    ensures Mentions(reasons, kind) <==> reasons != [] && kind == only
  {
    if reasons != [] {
      assert reasons[0] in reasons;
    }
  }

  /** When the trust of a retrieval is too low: its own, or full trust, times the provider's override, brought
      into [0, 1], against the threshold. */
  lemma LowTrustIff(p: Policy, overrides: map<string, real>, age: string -> Option<real>, r: Retrieval)
    ensures
      var provider := if r.provider == None then "unknown" else r.provider.value;
      var trust := if r.trust == None then 1.0 else r.trust.value;
      var product := trust * if provider in overrides then overrides[provider] else 1.0;
      Mentions(ReasonsFor(p, overrides, age, r), LowTrust) <==>
        (if product < 0.0 then 0.0 else if product > 1.0 then 1.0 else product) < p.minTrust
  {
    ReasonOfKind(p, overrides, age, r, LowTrust);
    MentionsOne(TrustReasons(p, overrides, r), LowTrust, LowTrust);
    DerivedTrustIs(overrides, r);
  }

  lemma DerivedTrustIs(overrides: map<string, real>, r: Retrieval)
    ensures
      var provider := if r.provider == None then "unknown" else r.provider.value;
      var trust := if r.trust == None then 1.0 else r.trust.value;
      var product := trust * if provider in overrides then overrides[provider] else 1.0;
      DerivedTrust(overrides, r) == if product < 0.0 then 0.0 else if product > 1.0 then 1.0 else product
  {
  }

  lemma AgeKinds(p: Policy, age: string -> Option<real>, r: Retrieval)
    ensures Mentions(AgeReasons(p, age, r), InvalidTimestamp) <==>
      r.createdAt != None && r.createdAt.value != "" && age(r.createdAt.value) == None
    ensures Mentions(AgeReasons(p, age, r), TooOld) <==>
      && r.createdAt != None && r.createdAt.value != "" && age(r.createdAt.value) != None
      && p.maxAgeDays != None && age(r.createdAt.value).value > p.maxAgeDays.value
  {
    MentionsOne([Plain(InvalidTimestamp)], InvalidTimestamp, InvalidTimestamp);
    MentionsOne([Plain(InvalidTimestamp)], InvalidTimestamp, TooOld);
    MentionsOne([Plain(TooOld)], TooOld, TooOld);
    MentionsOne([Plain(TooOld)], TooOld, InvalidTimestamp);
  }

  /** When a retrieval is too old, and when its time of creation cannot be read. */
  lemma AgeIff(p: Policy, overrides: map<string, real>, age: string -> Option<real>, r: Retrieval)
    ensures Mentions(ReasonsFor(p, overrides, age, r), InvalidTimestamp) <==>
      r.createdAt != None && r.createdAt.value != "" && age(r.createdAt.value) == None
    ensures Mentions(ReasonsFor(p, overrides, age, r), TooOld) <==>
      && r.createdAt != None && r.createdAt.value != "" && age(r.createdAt.value) != None
      && p.maxAgeDays != None && age(r.createdAt.value).value > p.maxAgeDays.value
  {
    ReasonOfKind(p, overrides, age, r, InvalidTimestamp);
    ReasonOfKind(p, overrides, age, r, TooOld);
    AgeKinds(p, age, r);
  }

  lemma ProviderKinds(p: Policy, r: Retrieval)
    ensures var provider := if r.provider == None then "unknown" else r.provider.value;
      && (Mentions(ProviderReasons(p, r), ProviderNotAllowed) <==>
            p.allowlist != None && provider !in p.allowlist.value)
      && (Mentions(ProviderReasons(p, r), ProviderDenied) <==> provider in p.denylist)
  {
    if p.allowlist != None && ProviderOf(r) !in p.allowlist.value {
      assert Plain(ProviderNotAllowed) in ProviderReasons(p, r);
    }
    if ProviderOf(r) in p.denylist {
      assert Plain(ProviderDenied) in ProviderReasons(p, r);
    }
  }

  /** When the provider, which may be unknown, is not allowed or denied. */
  lemma ProviderIff(p: Policy, overrides: map<string, real>, age: string -> Option<real>, r: Retrieval)
    ensures var provider := if r.provider == None then "unknown" else r.provider.value;
      && (Mentions(ReasonsFor(p, overrides, age, r), ProviderNotAllowed) <==>
            p.allowlist != None && provider !in p.allowlist.value)
      && (Mentions(ReasonsFor(p, overrides, age, r), ProviderDenied) <==> provider in p.denylist)
  {
    ReasonOfKind(p, overrides, age, r, ProviderNotAllowed);
    ReasonOfKind(p, overrides, age, r, ProviderDenied);
    ProviderKinds(p, r);
  }

  /** When a required field is missing, a privacy pattern matches, or the category is blocked. */
  lemma ContentIff(p: Policy, overrides: map<string, real>, age: string -> Option<real>, r: Retrieval)
    ensures Mentions(ReasonsFor(p, overrides, age, r), MissingProvenance) <==>
      exists f :: f in p.requiredFields && f !in r.meta
    ensures Mentions(ReasonsFor(p, overrides, age, r), PrivacyBlock) <==>
      exists pattern :: pattern in p.patterns && pattern.matches(if r.content == None then "" else r.content.value)
    ensures Mentions(ReasonsFor(p, overrides, age, r), CategoryBlocked) <==>
      "category" in r.meta && r.meta["category"] != "" && r.meta["category"] in p.blockedCategories
  {
    ReasonOfKind(p, overrides, age, r, MissingProvenance);
    ReasonOfKind(p, overrides, age, r, PrivacyBlock);
    ReasonOfKind(p, overrides, age, r, CategoryBlocked);
    GroupKinds(p, overrides, age, r);
    MentionsOne(ProvenanceReasons(p, r), MissingProvenance, MissingProvenance);
    MentionsOne(PrivacyReasons(p, r), PrivacyBlock, PrivacyBlock);
    MentionsOne(CategoryReasons(p, r), CategoryBlocked, CategoryBlocked);
    PrivacyMatchesIff(p.patterns, TextOr(r.content, ""));
    var missing := MissingFields(p.requiredFields, r.meta);
    if missing != [] {
      MissingFieldsIff(p.requiredFields, r.meta, missing[0]);
    }
    if f :| f in p.requiredFields && f !in r.meta {
      MissingFieldsIff(p.requiredFields, r.meta, f);
    }
  }

  /** A set of reasons is an error exactly when it refuses the provider or matches a privacy pattern. */
  lemma ErrorIff(reasons: seq<Reason>)
    ensures MaxSeverity(reasons) == Error <==>
      Mentions(reasons, ProviderNotAllowed) || Mentions(reasons, ProviderDenied) || Mentions(reasons, PrivacyBlock)
  {
    MaxSeverityBounds(reasons);
  }

  /** A verdict carries the name and provider of its retrieval and its reasons, and is info exactly when there
      are none and the block is kept. */
  lemma VerdictByFields(p: Policy, overrides: map<string, real>, age: string -> Option<real>, r: Retrieval)
    ensures var a := AnnotationFor(p, overrides, age, r);
      && a.chunkId == (if r.chunkId != None && r.chunkId.value != "" then r.chunkId.value
                       else if r.id == None then "" else r.id.value)
      && a.provider == (if r.provider == None then "unknown" else r.provider.value)
      && a.reasons == ReasonsFor(p, overrides, age, r) && (a.kept <==> a.reasons == [])
      && a.severity == MaxSeverity(a.reasons) && (a.severity == Info <==> a.kept)
      && a.details.derivedTrust == DerivedTrust(overrides, r) && a.hint == HintFor(p, a.reasons, a.details)
  {
    InfoMeansNoReason(ReasonsFor(p, overrides, age, r));
  }

  /** Without a rule that acts: blocked are private contents and refused providers; else low trust lowers the
      score to the derived trust, missing provenance to 0.9, a blocked category to 0.5. */
  lemma FallbackByKinds(p: Policy, reasons: seq<Reason>, details: Details)
    requires forall r :: r in reasons ==> !RuleActs(p.rules, r)
    ensures
      var private := Mentions(reasons, PrivacyBlock);
      var refused := Mentions(reasons, ProviderDenied) || Mentions(reasons, ProviderNotAllowed);
      var hint := HintFor(p, reasons, details);
      && (hint == None <==> !private && !refused && !Mentions(reasons, LowTrust)
                            && !Mentions(reasons, MissingProvenance) && !Mentions(reasons, CategoryBlocked))
      && (hint != None ==>
            && (hint.value.blockFlag <==> private || refused)
            && (hint.value.redact != [] <==> private)
            && hint.value.scoreAdjust ==
                 (if private || refused then None
                  else if Mentions(reasons, LowTrust) then Some(details.derivedTrust)
                  else if Mentions(reasons, MissingProvenance) then Some(0.9) else Some(0.5)))
  {
    RulesSetSomething(p.rules, reasons);
  }

  function Redactions(rules: map<Kind, Rule>, reasons: seq<Reason>): seq<string>
  {
    if reasons == [] then []
    else (if reasons[0].kind in rules then rules[reasons[0].kind].redact else []) + Redactions(rules, reasons[1..])
  }

  lemma {:induction false} RedactionsLast(rules: map<Kind, Rule>, reasons: seq<Reason>, r: Reason)
    ensures Redactions(rules, reasons + [r]) ==
      Redactions(rules, reasons) + if r.kind in rules then rules[r.kind].redact else []
  {
    if reasons == [] {
      assert [r][1..] == [] && reasons + [r] == [r];
    } else {
      assert (reasons + [r])[1..] == reasons[1..] + [r];
      RedactionsLast(rules, reasons[1..], r);
    }
  }

  /** The notes of the matching rules that have one. */
  function Notes(rules: map<Kind, Rule>, reasons: seq<Reason>): seq<string>
  {
    if reasons == [] then []
    else
      var kind := reasons[|reasons| - 1].kind;
      Notes(rules, reasons[..|reasons| - 1])
      + if kind in rules && rules[kind].note != "" then [rules[kind].note] else []
  }

  lemma {:induction false} JoinLast(words: seq<string>, w: string)
    requires words != []
    ensures Text.Join(" ", words + [w]) == Text.Join(" ", words) + " " + w
  {
    assert (words + [w])[1..] == words[1..] + [w];
    if |words| == 1 {
      assert words[1..] + [w] == [w];
      assert Text.Join(" ", [w]) == w;
    } else {
      JoinLast(words[1..], w);
    }
  }

  /** They are put one after the other, with blanks between. */
  lemma {:induction false} RulesNote(rules: map<Kind, Rule>, reasons: seq<Reason>)
    ensures ApplyRules(rules, reasons).note == Text.Join(" ", Notes(rules, reasons))
    ensures ApplyRules(rules, reasons).note == "" <==> Notes(rules, reasons) == []
  {
    if reasons != [] {
      var init, kind := reasons[..|reasons| - 1], reasons[|reasons| - 1].kind;
      RulesNote(rules, init);
      if kind in rules && rules[kind].note != "" {
        var note := rules[kind].note;
        if Notes(rules, init) == [] {
          assert [] + [note] == [note];
          assert Text.Join(" ", [note]) == note;
        } else {
          JoinLast(Notes(rules, init), note);
        }
      } else {
        assert Notes(rules, init) + [] == Notes(rules, init);
      }
    }
  }

  /** The redactions of all matching rules are gathered in the order of the reasons. */
  lemma {:induction false} RulesRedact(rules: map<Kind, Rule>, reasons: seq<Reason>)
    ensures ApplyRules(rules, reasons).redact == Redactions(rules, reasons)
  {
    if reasons != [] {
      var init, last := reasons[..|reasons| - 1], reasons[|reasons| - 1];
      RulesRedact(rules, init);
      RedactionsLast(rules, init, last);
      assert reasons == init + [last];
    }
  }

  /* ----- enforcement hints ----- */

  /** What one reason's policy rule does to the hint; a second note is put after the first. */
  function ApplyRule(rules: map<Kind, Rule>, hint: Hint, reason: Reason): Hint
  {
    if reason.kind !in rules then hint
    else
      var rule := rules[reason.kind];
      Hint(
        if rule.scoreAdjust == None then hint.scoreAdjust
        else if hint.scoreAdjust == None || rule.scoreAdjust.value < hint.scoreAdjust.value then rule.scoreAdjust
        else hint.scoreAdjust,
        hint.redact + rule.redact,
        hint.blockFlag || rule.blockFlag,
        if rule.note == "" then hint.note else if hint.note == "" then rule.note else hint.note + " " + rule.note)
  }

  function ApplyRules(rules: map<Kind, Rule>, reasons: seq<Reason>): Hint
  {
    if reasons == [] then NO_HINT
    else ApplyRule(rules, ApplyRules(rules, reasons[..|reasons| - 1]), reasons[|reasons| - 1])
  }

  predicate Mentions(reasons: seq<Reason>, kind: Kind)
  {
    exists r :: r in reasons && r.kind == kind
  }

  /** The heuristics used when no policy rule set anything. */
  function Fallback(reasons: seq<Reason>, details: Details): Option<Hint>
  {
    if Mentions(reasons, PrivacyBlock) then
      Some(Hint(None, ["privacy_block"], true, "Privacy-sensitive content matched; consider redaction or blocking."))
    else if Mentions(reasons, ProviderDenied) || Mentions(reasons, ProviderNotAllowed) then
      Some(Hint(None, [], true, " Provider not allowed by policy."))
    else if Mentions(reasons, LowTrust) then
      Some(Hint(Some(details.derivedTrust), [], false, " Low trust detected; suggest lowering score."))
    else if Mentions(reasons, MissingProvenance) then Some(Hint(Some(0.9), [], false, " Missing provenance fields."))
    else if Mentions(reasons, CategoryBlocked) then
      Some(Hint(Some(0.5), [], false, " Category is blocked by policy."))
    else None
  }

  function HintFor(p: Policy, reasons: seq<Reason>, details: Details): Option<Hint>
  {
    var hint := ApplyRules(p.rules, reasons);
    if hint != NO_HINT then Some(hint) else Fallback(reasons, details)
  }

  method BuildEnforcementHints(p: Policy, reasons: seq<Reason>, details: Details) returns (result: Option<Hint>)
    ensures result == HintFor(p, reasons, details)
  {
    var hint, setAny := NO_HINT, false;
    for i := 0 to |reasons|
      invariant hint == ApplyRules(p.rules, reasons[..i])
      invariant setAny <==> hint != NO_HINT
    {
      PrefixStep(reasons, i);
      var root := reasons[i].kind;
      if root in p.rules {
        var rule := p.rules[root];
        if rule.scoreAdjust != None {
          hint := if hint.scoreAdjust == None || rule.scoreAdjust.value < hint.scoreAdjust.value
                  then hint.(scoreAdjust := rule.scoreAdjust) else hint;
          setAny := true;
        }
        if rule.blockFlag {
          hint, setAny := hint.(blockFlag := true), true;
        }
        if rule.redact != [] {
          hint, setAny := hint.(redact := hint.redact + rule.redact), true;
        }
        if rule.note != "" {
          hint := hint.(note := if hint.note == "" then rule.note else hint.note + " " + rule.note);
          setAny := true;
        }
      }
    }
    assert reasons[..|reasons|] == reasons;
    if setAny {
      return Some(hint);
    }
    result := Fallback(reasons, details);
  }

  predicate RuleAdjusts(rules: map<Kind, Rule>, reason: Reason, v: real)
  {
    reason.kind in rules && rules[reason.kind].scoreAdjust == Some(v)
  }

  predicate RuleBlocks(rules: map<Kind, Rule>, reason: Reason)
  {
    reason.kind in rules && rules[reason.kind].blockFlag
  }

  /** With matching rules the score adjustment is their minimum and the block flag their disjunction. */
  lemma {:induction false} RulesCombine(rules: map<Kind, Rule>, reasons: seq<Reason>)
    ensures var hint := ApplyRules(rules, reasons);
      && (forall r, v :: r in reasons && RuleAdjusts(rules, r, v) ==>
            hint.scoreAdjust != None && hint.scoreAdjust.value <= v)
      && (hint.scoreAdjust != None ==> exists r :: r in reasons && RuleAdjusts(rules, r, hint.scoreAdjust.value))
      && (hint.blockFlag <==> exists r :: r in reasons && RuleBlocks(rules, r))
  {
    if reasons != [] {
      var before, last := reasons[..|reasons| - 1], reasons[|reasons| - 1];
      RulesCombine(rules, before);
      assert last in reasons && (forall r :: r in before ==> r in reasons);
      assert forall r :: r in reasons ==> r in before || r == last;
    }
  }

  predicate RuleActs(rules: map<Kind, Rule>, reason: Reason)
  {
    reason.kind in rules && rules[reason.kind] != Rule(None, false, [], "")
  }

  lemma {:induction false} RulesSetSomething(rules: map<Kind, Rule>, reasons: seq<Reason>)
    ensures ApplyRules(rules, reasons) != NO_HINT <==> exists r :: r in reasons && RuleActs(rules, r)
  {
    if reasons != [] {
      var before, last := reasons[..|reasons| - 1], reasons[|reasons| - 1];
      RulesSetSomething(rules, before);
      assert last in reasons && (forall r :: r in before ==> r in reasons);
      assert forall r :: r in reasons ==> r in before || r == last;
    }
  }

  lemma RulesIgnoreReasonOrder(rules: map<Kind, Rule>, xs: seq<Reason>, ys: seq<Reason>)
    requires forall r :: r in xs <==> r in ys
    ensures ApplyRules(rules, xs).scoreAdjust == ApplyRules(rules, ys).scoreAdjust
    ensures ApplyRules(rules, xs).blockFlag == ApplyRules(rules, ys).blockFlag
    ensures ApplyRules(rules, xs) == NO_HINT <==> ApplyRules(rules, ys) == NO_HINT
  {
    RulesCombine(rules, xs);
    RulesCombine(rules, ys);
    RulesSetSomething(rules, xs);
    RulesSetSomething(rules, ys);
  }

  lemma FallbackIgnoresReasonOrder(xs: seq<Reason>, ys: seq<Reason>, details: Details)
    requires forall r :: r in xs <==> r in ys
    ensures Fallback(xs, details) == Fallback(ys, details)
  {
    forall kind ensures Mentions(xs, kind) <==> Mentions(ys, kind) {
      if Mentions(xs, kind) {
        var r :| r in xs && r.kind == kind;
        assert r in ys;
      }
      if Mentions(ys, kind) {
        var r :| r in ys && r.kind == kind;
        assert r in xs;
      }
    }
  }

  /** Score adjustment, blocking, and whether there is a hint at all depend on which reasons occur, not
      on their order or repetition; the heuristic hints depend on nothing else either. */
  lemma HintIgnoresReasonOrder(p: Policy, xs: seq<Reason>, ys: seq<Reason>, details: Details)
    requires forall r :: r in xs <==> r in ys
    ensures HintFor(p, xs, details).Some? <==> HintFor(p, ys, details).Some?
    ensures HintFor(p, xs, details).Some? ==>
      && HintFor(p, xs, details).value.scoreAdjust == HintFor(p, ys, details).value.scoreAdjust
      && HintFor(p, xs, details).value.blockFlag == HintFor(p, ys, details).value.blockFlag
    ensures ApplyRules(p.rules, xs) == NO_HINT ==> HintFor(p, xs, details) == HintFor(p, ys, details)
  {
    RulesIgnoreReasonOrder(p.rules, xs, ys);
    FallbackIgnoresReasonOrder(xs, ys, details);
  }

  /* ----- the report ----- */

  function AnnotationFor(p: Policy, overrides: map<string, real>, age: string -> Option<real>, r: Retrieval): Annotation
  {
    var reasons, details := ReasonsFor(p, overrides, age, r), DetailsFor(p, overrides, age, r);
    Annotation(TextOr(ChunkKey(r), ""), ProviderOf(r), reasons == [], reasons, MaxSeverity(reasons), details,
               HintFor(p, reasons, details))
  }

  function Verdict(p: Policy, overrides: map<string, real>, age: string -> Option<real>): Retrieval -> Annotation
  {
    r => AnnotationFor(p, overrides, age, r)
  }

  function Annotations(p: Policy, overrides: map<string, real>, age: string -> Option<real>, rs: seq<Retrieval>)
    : seq<Annotation>
  {
    Map(rs, Verdict(p, overrides, age))
  }

  function AuditOf(a: Annotation): AuditEntry
  {
    AuditEntry(a.chunkId, a.provider, a.reasons, a.details)
  }

  function Warnings(anns: seq<Annotation>): seq<AuditEntry>
  {
    if anns == [] then []
    else
      var before, a := Warnings(anns[..|anns| - 1]), anns[|anns| - 1];
      if a.kept then before else before + [AuditOf(a)]
  }

  function Occurrences(c: SummaryKey, reasons: seq<Reason>): nat
  {
    if c == Kept then 0 else multiset(reasons)[c.reason]
  }

  /** How often `c` is counted over all annotations: as a reason, or once per kept block for `Kept`. */
  function Tally(c: SummaryKey, anns: seq<Annotation>): nat
  {
    if anns == [] then 0
    else
      var a := anns[|anns| - 1];
      Tally(c, anns[..|anns| - 1]) + if a.kept then (if c == Kept then 1 else 0) else Occurrences(c, a.reasons)
  }

  function KeptCount(anns: seq<Annotation>): nat
  {
    if anns == [] then 0 else KeptCount(anns[..|anns| - 1]) + if anns[|anns| - 1].kept then 1 else 0
  }

  function Lookup(counters: map<SummaryKey, nat>, c: SummaryKey): nat
  {
    if c in counters then counters[c] else 0
  }

  ghost predicate AllPositive(counters: map<SummaryKey, nat>)
  {
    forall c :: c in counters ==> counters[c] > 0
  }

  /** A counter dictionary that holds exactly the positive tallies. */
  ghost predicate Counts(summary: map<SummaryKey, nat>, anns: seq<Annotation>)
  {
    AllPositive(summary) && forall c :: Lookup(summary, c) == Tally(c, anns)
  }

  function Bump(counters: map<SummaryKey, nat>, c: SummaryKey): map<SummaryKey, nat>
  {
    counters[c := Lookup(counters, c) + 1]
  }

  method CountReasons(counters: map<SummaryKey, nat>, reasons: seq<Reason>) returns (r: map<SummaryKey, nat>)
    requires AllPositive(counters)
    ensures AllPositive(r)
    ensures forall c :: Lookup(r, c) == Lookup(counters, c) + Occurrences(c, reasons)
  {
    r := counters;
    for i := 0 to |reasons|
      invariant AllPositive(r)
      invariant forall c :: Lookup(r, c) == Lookup(counters, c) + Occurrences(c, reasons[..i])
    {
      PrefixStep(reasons, i);
      r := Bump(r, Because(reasons[i]));
    }
    assert reasons[..|reasons|] == reasons;
  }

  /** Counting one more block keeps the dictionary in step with the annotations. */
  lemma CountsStep(before: map<SummaryKey, nat>, after: map<SummaryKey, nat>, anns: seq<Annotation>, a: Annotation)
    requires Counts(before, anns) && AllPositive(after)
    requires a.kept ==> after == Bump(before, Kept)
    requires !a.kept ==> forall c :: Lookup(after, c) == Lookup(before, c) + Occurrences(c, a.reasons)
    ensures Counts(after, anns + [a])
  {
    forall c ensures Lookup(after, c) == Tally(c, anns + [a]) {
      TallyStep(c, anns, a);
      assert Lookup(before, c) == Tally(c, anns);
    }
  }

  method CountBlock(summary: map<SummaryKey, nat>, a: Annotation, ghost anns: seq<Annotation>)
    returns (after: map<SummaryKey, nat>)
    requires Counts(summary, anns)
    ensures Counts(after, anns + [a])
  {
    if !a.kept {
      after := CountReasons(summary, a.reasons);
    } else {
      after := Bump(summary, Kept);
    }
    CountsStep(summary, after, anns, a);
  }

  class Validator {
    const policy: Policy
    const overrides: map<string, real>
    var lastReport: Option<Report>
    var lastReportV2: Option<ReportV2>

    constructor (policy: Policy, overrides: map<string, real>)
      ensures this.policy == policy && this.overrides == overrides && lastReport == None && lastReportV2 == None
    {
      this.policy, this.overrides, lastReport, lastReportV2 := policy, overrides, None, None;
    }

    method Judge(r: Retrieval, age: string -> Option<real>) returns (a: Annotation)
      ensures a == AnnotationFor(policy, overrides, age, r)
    {
      var reasons, details := ReasonsFor(policy, overrides, age, r), DetailsFor(policy, overrides, age, r);
      var severity := DeriveSeverity(reasons);
      var hint := BuildEnforcementHints(policy, reasons, details);
      a := Annotation(TextOr(ChunkKey(r), ""), ProviderOf(r), reasons == [], reasons, severity, details, hint);
    }

    /** `validate`: judges every retrieval, counts the reasons and stores both reports. */
    method Validate(retrievals: seq<Retrieval>, age: string -> Option<real>) returns (report: Report)
      modifies this
      ensures report.total == |retrievals|
      ensures report.warnings == Warnings(Annotations(policy, overrides, age, retrievals))
      ensures Counts(report.summary, Annotations(policy, overrides, age, retrievals))
      ensures lastReport == Some(report)
      ensures lastReportV2 ==
        Some(ReportV2(|retrievals|, Annotations(policy, overrides, age, retrievals), report.summary))
    {
      var warnings: seq<AuditEntry>, summary: map<SummaryKey, nat>, annotations: seq<Annotation> := [], map[], [];
      ghost var verdict := Verdict(policy, overrides, age);
      for i := 0 to |retrievals|
        invariant Judged(retrievals[..i], verdict, annotations, warnings, summary)
      {
        var a := Judge(retrievals[i], age);
        summary := CountBlock(summary, a, annotations);
        JudgedOneMore(retrievals, i, verdict, annotations, warnings, summary, a);
        if !a.kept {
          warnings := warnings + [AuditOf(a)];
        }
        annotations := annotations + [a];
      }
      assert retrievals[..|retrievals|] == retrievals;
      report := Report(|retrievals|, warnings, summary);
      lastReport := Some(report);
      lastReportV2 := Some(ReportV2(|retrievals|, annotations, summary));
    }
  }

  /** What the loop of `validate` has made of the retrievals in `done`. */
  ghost predicate Judged(done: seq<Retrieval>, verdict: Retrieval -> Annotation, annotations: seq<Annotation>,
                         warnings: seq<AuditEntry>, summary: map<SummaryKey, nat>)
  {
    annotations == Map(done, verdict) && warnings == Warnings(annotations) && Counts(summary, annotations)
  }

  lemma JudgedOneMore(rs: seq<Retrieval>, i: nat, verdict: Retrieval -> Annotation, annotations: seq<Annotation>,
                      warnings: seq<AuditEntry>, summary: map<SummaryKey, nat>, a: Annotation)
    requires i < |rs| && a == verdict(rs[i])
    requires annotations == Map(rs[..i], verdict) && warnings == Warnings(annotations)
    requires Counts(summary, annotations + [a])
    ensures Judged(rs[..i + 1], verdict, annotations + [a],
                   if a.kept then warnings else warnings + [AuditOf(a)], summary)
  {
    PrefixStep(rs, i);
    MapLast(rs[..i], rs[i], verdict);
    WarningsStep(annotations, a);
  }

  lemma WarningsStep(anns: seq<Annotation>, a: Annotation)
    ensures Warnings(anns + [a]) ==
      if a.kept then Warnings(anns) else Warnings(anns) + [AuditOf(a)]
  {
    assert (anns + [a])[..|anns|] == anns;
  }

  lemma TallyStep(c: SummaryKey, anns: seq<Annotation>, a: Annotation)
    ensures Tally(c, anns + [a]) ==
      Tally(c, anns) + if a.kept then (if c == Kept then 1 else 0) else Occurrences(c, a.reasons)
  {
    assert (anns + [a])[..|anns|] == anns;
  }

  lemma {:induction false} KeptAndWarned(anns: seq<Annotation>)
    ensures KeptCount(anns) + |Warnings(anns)| == |anns|
    ensures Tally(Kept, anns) == KeptCount(anns)
  {
    if anns != [] {
      KeptAndWarned(anns[..|anns| - 1]);
    }
  }

  lemma InfoMeansNoReason(reasons: seq<Reason>)
    ensures MaxSeverity(reasons) == Info <==> reasons == []
  {
    MaxSeverityBounds(reasons);
    if reasons != [] {
      assert reasons[0] in reasons;
    }
  }

  /** Bookkeeping of a report: kept and warned blocks add up to the total, `Kept` counts the kept blocks,
      and a block's severity is `Info` exactly when it was kept. */
  lemma ReportAddsUp(
    p: Policy, overrides: map<string, real>, age: string -> Option<real>, rs: seq<Retrieval>)
    ensures var anns := Annotations(p, overrides, age, rs);
      && |anns| == |rs|
      && KeptCount(anns) + |Warnings(anns)| == |rs|
      && Tally(Kept, anns) == KeptCount(anns)
      && forall i :: 0 <= i < |anns| ==> (anns[i].severity == Info <==> anns[i].kept)
  {
    var anns := Annotations(p, overrides, age, rs);
    KeptAndWarned(anns);
    forall i | 0 <= i < |anns| ensures anns[i].severity == Info <==> anns[i].kept {
      assert anns[i] == Verdict(p, overrides, age)(rs[i]);
      InfoMeansNoReason(anns[i].reasons);
    }
  }
}
