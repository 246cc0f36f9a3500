/** The lifecycle of OAuth tokens over the secret store and the metadata files (src/project_maya/broker.py). */
module TokenLifecycle {
  import opened Sequences
  import Text

  datatype Provider = Google | Slack

  datatype Mode = Disabled | Runtime | OtherMode

  /** `connectors` are the providers with an enabled, broker-assisted integration outside the enterprise
      edition. */
  datatype Config = Config(mode: Mode, endpoint: string, connectors: set<Provider>)

  /** Who refreshes a token. */
  datatype Owner = Local | BrokerAssisted

  /** The three messages of a status. */
  datatype Message = EnvelopeActive | EnvelopeRevoked | MetadataMissing

  /** The secret: what is stored under the provider's token reference. */
  datatype Envelope = Envelope(
    provider: Provider,
    accessToken: string,
    refreshToken: string,
    scope: string,
    expiresAt: int,
    refreshOwner: Owner,
    rotationCount: nat)

  datatype TokenState = NotConfigured | Active | Revoked

  /** The metadata file of a provider, which is also what `token_status` reports. */
  datatype Status = Status(
    provider: Provider,
    state: TokenState,
    refreshOwner: Owner,
    scopes: seq<string>,
    expiresAt: Option<int>,
    rotationCount: nat,
    revokedAt: Option<int>,
    message: Message)

  datatype Session = Session(provider: Provider, state: string, scopes: seq<string>, createdAt: int, expiresAt: int)

  datatype Stores = Stores(
    secrets: map<Provider, Envelope>,
    metadata: map<Provider, Status>,
    sessions: map<string, Session>)

  const EMPTY := Stores(map[], map[], map[])

  const MINUTE: int := 60_000_000
  const TEN_MINUTES: int := 10 * MINUTE
  const TWELVE_HOURS: int := 12 * 60 * MINUTE

  /** A request to the broker; `provider` is None for a name that is not supported.  Tokens that the code
      draws at random and the clock are arguments. */
  datatype Op =
    | Start(sessionId: string, session: Session)
    | Complete(provider: Option<Provider>, apply: bool, sessionId: string, state: string, code: string,
               access: string, refresh: string, now: int)
    | Refresh(provider: Option<Provider>, apply: bool, access: string, refresh: string, now: int)
    | Revoke(provider: Option<Provider>, apply: bool, now: int)

  datatype Result =
    | Done
    | BrokerDisabled | NotRuntime | NoEndpoint | Unsupported | NeedsApply | NoConnector
    | SessionUnavailable | ProviderMismatch | SessionFromFuture | SessionExpired | StateMismatch | NoCode
    | EnvelopeUnavailable

  /* ----- the scopes of a connector ----- */

  const GOOGLE_AUTH := "https://www.googleapis.com/auth/"

  /** The scopes of each capability in a connector's contract. */
  function Capabilities(p: Provider): seq<seq<string>>
  {
    match p
    case Google => [[GOOGLE_AUTH + "drive.readonly"], [GOOGLE_AUTH + "calendar.readonly"]]
    case Slack => [["channels:history"], ["chat:write"]]
  }

  function Flatten<T>(xss: seq<seq<T>>): seq<T>
  {
    if xss == [] then [] else xss[0] + Flatten(xss[1..])
  }

  /** `dict.fromkeys`: each element where it occurs first. */
  function Distinct<T(==)>(xs: seq<T>): seq<T>
  {
    if xs == [] then []
    else
      var before, last := Distinct(xs[..|xs| - 1]), xs[|xs| - 1];
      if last in before then before else before + [last]
  }

  /** `_connector_scopes`. */
  function ConnectorScopes(p: Provider): seq<string>
  {
    Distinct(Flatten(Capabilities(p)))
  }

  /** The catalogue in full. */
  lemma ConnectorScopesAre()
    ensures ConnectorScopes(Google) == [GOOGLE_AUTH + "drive.readonly", GOOGLE_AUTH + "calendar.readonly"]
    ensures ConnectorScopes(Slack) == ["channels:history", "chat:write"]
  {
    var a, b := GOOGLE_AUTH + "drive.readonly", GOOGLE_AUTH + "calendar.readonly";
    assert a[|GOOGLE_AUTH|] == 'd' && b[|GOOGLE_AUTH|] == 'c';
    FlattenPair(a, b);
    DistinctPair(a, b);
    assert "channels:history"[2] == 'a' && "chat:write"[3] == 't' && "channels:history"[3] == 'n';
    FlattenPair("channels:history", "chat:write");
    DistinctPair("channels:history", "chat:write");
  }

  lemma FlattenPair<T>(a: T, b: T)
    ensures Flatten([[a], [b]]) == [a, b]
  {
    assert [[a], [b]][1..] == [[b]];
    assert [[b]][1..] == [];
    assert Flatten([[b]]) == [b];
  }

  lemma DistinctPair<T>(a: T, b: T)
    requires a != b
    ensures Distinct([a, b]) == [a, b]
  {
    assert [a, b][..1] == [a];
    assert [a][..0] == [];
    assert Distinct([a][..0]) == [];
    assert Distinct([a]) == [a];
  }

  predicate IsWord(w: string)
  {
    Text.IsToken(w, Text.IsSpace)
  }

  lemma WordsJoin(a: string, b: string)
    requires IsWord(a) && IsWord(b)
    ensures IsWord(a + b)
  {
  }

  lemma GoogleAuthIsWord()
    ensures IsWord(GOOGLE_AUTH)
  {
    GoogleAuthParts();
    WordsJoin("https://www.", "googleapis.");
    WordsJoin("https://www." + "googleapis.", "com/auth/");
    assert GOOGLE_AUTH == ("https://www." + "googleapis.") + "com/auth/";
  }

  lemma GoogleAuthParts()
    ensures IsWord("https://www.") && IsWord("googleapis.") && IsWord("com/auth/")
  {
  }

  lemma GoogleScopesAreWords()
    ensures IsWord(GOOGLE_AUTH + "drive.readonly") && IsWord(GOOGLE_AUTH + "calendar.readonly")
  {
    GoogleAuthIsWord();
    ReadOnlyWords();
    WordsJoin(GOOGLE_AUTH, "drive.readonly");
    WordsJoin(GOOGLE_AUTH, "calendar.readonly");
  }

  lemma ReadOnlyWords()
    ensures IsWord("drive.readonly") && IsWord("calendar.readonly")
  {
    assert IsWord("calendar.") && IsWord("readonly");
    WordsJoin("calendar.", "readonly");
    assert "calendar.readonly" == "calendar." + "readonly";
  }

  lemma SlackScopesAreWords()
    ensures IsWord("channels:history") && IsWord("chat:write")
  {
  }

  /** No connector asks for a scope that is empty or contains white space. */
  lemma ConnectorScopesAreWords(p: Provider)
    ensures forall s :: s in ConnectorScopes(p) ==> IsWord(s)
  {
    ConnectorScopesAre();
    GoogleScopesAreWords();
    SlackScopesAreWords();
  }

  /* ----- the operations ----- */

  function RefreshOwner(p: Provider): Owner
  {
    if p == Google then Local else BrokerAssisted
  }

  /** `_token_metadata_from_payload`. */
  function Project(e: Envelope): Status
  {
    Status(e.provider, Active, e.refreshOwner, Text.Split(e.scope, Text.IsSpace), Some(e.expiresAt),
           e.rotationCount, None, EnvelopeActive)
  }

  function RevokedStatus(p: Provider, now: int): Status
  {
    Status(p, Revoked, RefreshOwner(p), [], None, 0, Some(now),
           EnvelopeRevoked)
  }

  /** The checks that come before anything else, Done when they pass. */
  function Guard(cfg: Config, provider: Option<Provider>, apply: bool): Result
  {
    if cfg.mode == Disabled then BrokerDisabled
    else if cfg.mode != Runtime then NotRuntime
    else if cfg.endpoint == "" then NoEndpoint
    else if provider == None then Unsupported
    else if !apply then NeedsApply
    else Done
  }

  function CheckSession(st: Stores, op: Op): Result
    requires op.Complete? && op.provider != None
  {
    if op.sessionId !in st.sessions then SessionUnavailable
    else
      var s := st.sessions[op.sessionId];
      if s.provider != op.provider.value then ProviderMismatch
      else if s.createdAt > op.now + MINUTE then SessionFromFuture
      else if s.expiresAt <= op.now then SessionExpired
      else if op.state == "" || op.state != s.state then StateMismatch
      else if op.code == "" then NoCode
      else Done
  }

  /** The result of an operation on the given stores. */
  function ResultOf(cfg: Config, st: Stores, op: Op): Result
  {
    match op
    case Start(_, session) =>
      if Guard(cfg, Some(session.provider), true) != Done then Guard(cfg, Some(session.provider), true)
      else if session.provider !in cfg.connectors then NoConnector else Done
    case Complete(provider, apply, _, _, _, _, _, _) =>
      if Guard(cfg, provider, apply) != Done then Guard(cfg, provider, apply) else CheckSession(st, op)
    case Refresh(provider, apply, _, _, _) =>
      if Guard(cfg, provider, apply) != Done then Guard(cfg, provider, apply)
      else if provider.value !in st.secrets then EnvelopeUnavailable else Done
    case Revoke(provider, apply, _) => Guard(cfg, provider, apply)
  }

  function NewEnvelope(op: Op, session: Session): Envelope
    requires op.Complete? && op.provider != None
  {
    Envelope(op.provider.value, op.access, op.refresh, Text.Join(" ", session.scopes), op.now + TWELVE_HOURS,
             RefreshOwner(op.provider.value), 0)
  }

  /** Google keeps its refresh token, Slack gets a new one. */
  function Rotate(e: Envelope, op: Op): Envelope
    requires op.Refresh? && op.provider != None
  {
    e.(accessToken := op.access, expiresAt := op.now + TWELVE_HOURS, rotationCount := e.rotationCount + 1,
       refreshToken := if op.provider.value == Slack then op.refresh else e.refreshToken)
  }

  function Put(st: Stores, p: Provider, e: Envelope): Stores
  {
    st.(secrets := st.secrets[p := e], metadata := st.metadata[p := Project(e)])
  }

  function Step(cfg: Config, st: Stores, op: Op): Stores
  {
    if ResultOf(cfg, st, op) != Done then st
    else match op
      case Start(id, session) => st.(sessions := st.sessions[id := session])
      case Complete(provider, _, id, _, _, _, _, _) => Put(st, provider.value, NewEnvelope(op, st.sessions[id]))
      case Refresh(provider, _, _, _, _) => Put(st, provider.value, Rotate(st.secrets[provider.value], op))
      case Revoke(provider, _, now) =>
        st.(secrets := st.secrets - {provider.value},
            metadata := st.metadata[provider.value := RevokedStatus(provider.value, now)])
  }

  /** `token_status`. */
  function StatusOf(st: Stores, p: Provider): Status
  {
    if p in st.metadata then st.metadata[p]
    else Status(p, NotConfigured, RefreshOwner(p), [], None, 0, None, MetadataMissing)
  }

  class Broker {
    const cfg: Config
    var stores: Stores

    constructor (cfg: Config)
      ensures this.cfg == cfg && stores == EMPTY
    {
      this.cfg, stores := cfg, EMPTY;
    }

    /** Secret and metadata are written one after the other. */
    method Store(p: Provider, e: Envelope)
      modifies this
      ensures stores == Put(old(stores), p, e)
    {
      stores := stores.(secrets := stores.secrets[p := e]);
      stores := stores.(metadata := stores.metadata[p := Project(e)]);
    }

    /** `start_oauth_session`; without `apply` the session is only shown. */
    method StartSession(provider: Option<Provider>, apply: bool, id: string, state: string, drawn: int, written: int)
      returns (r: Result)
      modifies this
      ensures provider == None ==> r == Guard(cfg, None, true) && stores == old(stores)
      ensures provider != None ==>
        var p := provider.value;
        var op := Start(id, Session(p, state, ConnectorScopes(p), written, drawn + 600_000_000));
        && r == ResultOf(cfg, old(stores), op)
        && stores == if apply then Step(cfg, old(stores), op) else old(stores)
    {
      r := Guard(cfg, provider, true);
      if r != Done {
        return;
      }
      var p := provider.value;
      if p !in cfg.connectors {
        return NoConnector;
      }
      var session := Session(p, state, ConnectorScopes(p), written, drawn + TEN_MINUTES);
      if apply {
        stores := stores.(sessions := stores.sessions[id := session]);
      }
    }

    /** `complete_oauth_session`. */
    method CompleteSession(op: Op) returns (r: Result)
      requires op.Complete?
      modifies this
      ensures r == ResultOf(cfg, old(stores), op) && stores == Step(cfg, old(stores), op)
    {
      r := Guard(cfg, op.provider, op.apply);
      if r != Done {
        return;
      }
      if op.sessionId !in stores.sessions {
        return SessionUnavailable;
      }
      var session := stores.sessions[op.sessionId];
      if session.provider != op.provider.value {
        return ProviderMismatch;
      }
      if session.createdAt > op.now + MINUTE {
        return SessionFromFuture;
      }
      if session.expiresAt <= op.now {
        return SessionExpired;
      }
      if op.state == "" || op.state != session.state {
        return StateMismatch;
      }
      if op.code == "" {
        return NoCode;
      }
      Store(op.provider.value, NewEnvelope(op, session));
    }

    /** `refresh_token`. */
    method RefreshToken(op: Op) returns (r: Result)
      requires op.Refresh?
      modifies this
      ensures r == ResultOf(cfg, old(stores), op) && stores == Step(cfg, old(stores), op)
    {
      r := Guard(cfg, op.provider, op.apply);
      if r != Done {
        return;
      }
      if op.provider.value !in stores.secrets {
        return EnvelopeUnavailable;
      }
      Store(op.provider.value, Rotate(stores.secrets[op.provider.value], op));
    }

    /** `revoke_token`: deleting a secret that is not there is no error. */
    method RevokeToken(op: Op) returns (r: Result)
      requires op.Revoke?
      modifies this
      ensures r == ResultOf(cfg, old(stores), op) && stores == Step(cfg, old(stores), op)
    {
      r := Guard(cfg, op.provider, op.apply);
      if r != Done {
        return;
      }
      var p := op.provider.value;
      stores := stores.(secrets := stores.secrets - {p});
      stores := stores.(metadata := stores.metadata[p := RevokedStatus(p, op.now)]);
    }
  }

  /* ----- every run ----- */

  function Run(cfg: Config, ops: seq<Op>): Stores
  {
    if ops == [] then EMPTY else Step(cfg, Run(cfg, ops[..|ops| - 1]), ops[|ops| - 1])
  }

  predicate LastSucceeds(cfg: Config, ops: seq<Op>)
    requires ops != []
  {
    ResultOf(cfg, Run(cfg, ops[..|ops| - 1]), ops[|ops| - 1]) == Done
  }

  predicate Targets(op: Op, p: Provider)
  {
    !op.Start? && op.provider == Some(p)
  }

  /** Whether the last successful completion or revocation of `p` was a completion. */
  predicate Holds(cfg: Config, ops: seq<Op>, p: Provider)
  {
    if ops == [] then false
    else
      var op := ops[|ops| - 1];
      if Targets(op, p) && !op.Refresh? && LastSucceeds(cfg, ops) then op.Complete? else Holds(cfg, ops[..|ops| - 1], p)
  }

  /** The successful refreshes of `p` since its last successful completion or revocation. */
  function RefreshesSince(cfg: Config, ops: seq<Op>, p: Provider): nat
  {
    if ops == [] then 0
    else
      var op, before := ops[|ops| - 1], RefreshesSince(cfg, ops[..|ops| - 1], p);
      if !Targets(op, p) || !LastSucceeds(cfg, ops) then before else if op.Refresh? then before + 1 else 0
  }

  /** The scopes of the session of the last successful completion of `p`, if it is still in force. */
  function GrantedScopes(cfg: Config, ops: seq<Op>, p: Provider): seq<string>
  {
    if ops == [] then []
    else
      var op, init := ops[|ops| - 1], ops[..|ops| - 1];
      if Targets(op, p) && !op.Refresh? && LastSucceeds(cfg, ops) then
        if op.Complete? then Run(cfg, init).sessions[op.sessionId].scopes else []
      else GrantedScopes(cfg, init, p)
  }

  function Secret(st: Stores, p: Provider): Option<Envelope>
  {
    if p in st.secrets then Some(st.secrets[p]) else None
  }

  function Meta(st: Stores, p: Provider): Option<Status>
  {
    if p in st.metadata then Some(st.metadata[p]) else None
  }

  predicate Acts(cfg: Config, st: Stores, op: Op, p: Provider)
  {
    Targets(op, p) && ResultOf(cfg, st, op) == Done
  }

  lemma PutAt(st: Stores, q: Provider, e: Envelope, p: Provider)
    ensures Secret(Put(st, q, e), p) == if p == q then Some(e) else Secret(st, p)
    ensures Meta(Put(st, q, e), p) == if p == q then Some(Project(e)) else Meta(st, p)
  {
  }

  /** What one operation does to the two stores of one provider; whatever fails or is about the other
      provider leaves them alone. */
  lemma StepAt(cfg: Config, st: Stores, op: Op, p: Provider)
    ensures var after := Step(cfg, st, op);
      if !Acts(cfg, st, op, p) then Secret(after, p) == Secret(st, p) && Meta(after, p) == Meta(st, p)
      else if op.Revoke? then Secret(after, p) == None && Meta(after, p) == Some(RevokedStatus(p, op.now))
      else
        && Secret(after, p) != None
        && Meta(after, p) == Some(Project(Secret(after, p).value))
        && (op.Complete? ==>
              op.sessionId in st.sessions && Secret(after, p).value == NewEnvelope(op, st.sessions[op.sessionId]))
        && (op.Refresh? ==> Secret(st, p) != None && Secret(after, p).value == Rotate(Secret(st, p).value, op))
  {
    if ResultOf(cfg, st, op) == Done {
      match op {
        case Start(_, _) =>
        case Complete(provider, _, id, _, _, _, _, _) =>
          PutAt(st, provider.value, NewEnvelope(op, st.sessions[id]), p);
        case Refresh(provider, _, _, _, _) =>
          PutAt(st, provider.value, Rotate(st.secrets[provider.value], op), p);
        case Revoke(_, _, _) =>
      }
    }
  }

  /** In every reachable state the stores agree: where there is a secret the metadata is its projection and
      active, where there is none it says revoked, or there is no metadata at all. */
  lemma {:induction false} StoresAgree(cfg: Config, ops: seq<Op>, p: Provider)
    ensures var secret, meta := Secret(Run(cfg, ops), p), Meta(Run(cfg, ops), p);
      && (secret != None ==> secret.value.provider == p && meta == Some(Project(secret.value)))
      && (secret == None && meta != None ==> exists now :: meta == Some(RevokedStatus(p, now)))
  {
    if ops != [] {
      var init, op := ops[..|ops| - 1], ops[|ops| - 1];
      StoresAgree(cfg, init, p);
      StepAt(cfg, Run(cfg, init), op, p);
    }
  }

  /** A secret is held exactly after a completion that was not revoked, and then its rotation count is the
      number of refreshes since, and it carries the scopes granted there. */
  lemma {:induction false} SecretTracksHistory(cfg: Config, ops: seq<Op>, p: Provider)
    ensures var secret := Secret(Run(cfg, ops), p);
      && (secret != None <==> Holds(cfg, ops, p))
      && (secret != None ==>
            && secret.value.rotationCount == RefreshesSince(cfg, ops, p)
            && secret.value.scope == Text.Join(" ", GrantedScopes(cfg, ops, p)))
  {
    if ops != [] {
      var init, op := ops[..|ops| - 1], ops[|ops| - 1];
      SecretTracksHistory(cfg, init, p);
      StepAt(cfg, Run(cfg, init), op, p);
    }
  }

  /** What `token_status` reports after any run. */
  lemma StatusAfterRun(cfg: Config, ops: seq<Op>, p: Provider)
    ensures var status, secret := StatusOf(Run(cfg, ops), p), Secret(Run(cfg, ops), p);
      && status.provider == p
      && (status.state == Active <==> Holds(cfg, ops, p))
      && (secret == None <==> !Holds(cfg, ops, p))
      && status.rotationCount == (if Holds(cfg, ops, p) then RefreshesSince(cfg, ops, p) else 0)
      && (secret != None ==> status == Project(secret.value))
      && (secret == None ==> status.scopes == [] && status.expiresAt == None)
  {
    StoresAgree(cfg, ops, p);
    SecretTracksHistory(cfg, ops, p);
  }

  /** Whatever the sessions carried, the reported scopes are the granted ones exactly when no granted scope is
      empty or contains white space, because they are stored joined by spaces. */
  lemma ScopesSurvive(cfg: Config, ops: seq<Op>, p: Provider)
    requires Holds(cfg, ops, p)
    ensures StatusOf(Run(cfg, ops), p).scopes == GrantedScopes(cfg, ops, p) <==>
      forall s :: s in GrantedScopes(cfg, ops, p) ==> Text.IsToken(s, Text.IsSpace)
  {
    StatusAfterRun(cfg, ops, p);
    SecretTracksHistory(cfg, ops, p);
    Text.JoinSplitRoundTrip(' ', GrantedScopes(cfg, ops, p), Text.IsSpace);
    assert [' '] == " ";
  }

  /** A session as `start_oauth_session` writes it. */
  predicate FromConnector(session: Session)
  {
    session.scopes == ConnectorScopes(session.provider)
  }

  predicate SessionsFromConnectors(ops: seq<Op>)
  {
    forall op :: op in ops && op.Start? ==> FromConnector(op.session)
  }

  lemma {:induction false} StoredSessions(cfg: Config, ops: seq<Op>)
    requires SessionsFromConnectors(ops)
    ensures forall id :: id in Run(cfg, ops).sessions ==> FromConnector(Run(cfg, ops).sessions[id])
  {
    if ops != [] {
      StoredSessions(cfg, ops[..|ops| - 1]);
      assert ops[|ops| - 1] in ops;
    }
  }

  lemma {:induction false} GrantIsCatalogue(cfg: Config, ops: seq<Op>, p: Provider)
    requires SessionsFromConnectors(ops) && Holds(cfg, ops, p)
    ensures GrantedScopes(cfg, ops, p) == ConnectorScopes(p)
  {
    var init, op := ops[..|ops| - 1], ops[|ops| - 1];
    if Targets(op, p) && !op.Refresh? && LastSucceeds(cfg, ops) {
      StoredSessions(cfg, init);
    } else {
      GrantIsCatalogue(cfg, init, p);
    }
  }

  /** So in every run of the code, where only `start_oauth_session` opens sessions, the status of a held token
      reports exactly the scopes of its connector. */
  lemma CatalogueScopesReported(cfg: Config, ops: seq<Op>, p: Provider)
    requires SessionsFromConnectors(ops) && Holds(cfg, ops, p)
    ensures StatusOf(Run(cfg, ops), p).scopes == ConnectorScopes(p)
  {
    GrantIsCatalogue(cfg, ops, p);
    ConnectorScopesAreWords(p);
    ScopesSurvive(cfg, ops, p);
  }

  /* ----- when operations succeed ----- */

  lemma GuardIff(cfg: Config, provider: Option<Provider>, apply: bool)
    ensures Guard(cfg, provider, apply) == Done <==>
      cfg.mode == Runtime && cfg.endpoint != "" && provider != None && apply
  {
  }

  /** A session is opened exactly for a usable connector while the broker runs. */
  lemma StartSucceedsIff(cfg: Config, st: Stores, op: Op)
    requires op.Start?
    ensures ResultOf(cfg, st, op) == Done <==>
      cfg.mode == Runtime && cfg.endpoint != "" && op.session.provider in cfg.connectors
  {
  }

  /** A completion succeeds exactly when it is allowed, names a stored session of its provider that is fresh,
      and the callback brings that session's state and a code. */
  lemma CompletionSucceedsIff(cfg: Config, st: Stores, op: Op)
    requires op.Complete?
    ensures ResultOf(cfg, st, op) == Done <==>
      && cfg.mode == Runtime && cfg.endpoint != "" && op.provider != None && op.apply
      && op.sessionId in st.sessions
      && var s := st.sessions[op.sessionId];
         && s.provider == op.provider.value
         && s.createdAt <= op.now + 60_000_000 && op.now < s.expiresAt
         && op.state != "" && op.state == s.state
         && op.code != ""
  {
    GuardIff(cfg, op.provider, op.apply);
  }

  /** A revocation succeeds whenever it is allowed. */
  lemma RevocationSucceedsIff(cfg: Config, st: Stores, op: Op)
    requires op.Revoke?
    ensures ResultOf(cfg, st, op) == Done <==>
      cfg.mode == Runtime && cfg.endpoint != "" && op.provider != None && op.apply
  {
  }

  /** What a completion leaves behind: the drawn tokens, twelve hours to live, no rotation yet. */
  lemma CompletedToken(cfg: Config, st: Stores, op: Op, p: Provider)
    requires op.Complete? && op.provider == Some(p) && ResultOf(cfg, st, op) == Done
    ensures p in Step(cfg, st, op).secrets
    ensures var e := Step(cfg, st, op).secrets[p];
      && e.provider == p && e.accessToken == op.access && e.refreshToken == op.refresh
      && e.expiresAt == op.now + 43_200_000_000 && e.rotationCount == 0
      && e.refreshOwner == (if p == Google then Local else BrokerAssisted)
    ensures var status := StatusOf(Step(cfg, st, op), p);
      && status.state == Active && status.expiresAt == Some(op.now + 43_200_000_000) && status.rotationCount == 0
      && status.refreshOwner == (if p == Google then Local else BrokerAssisted) && status.revokedAt == None
  {
    StepAt(cfg, st, op, p);
  }

  /** What a refresh leaves behind: a new access token, for Slack also a new refresh token, twelve more hours
      and one more rotation; the rest of the envelope is the old one's. */
  lemma RefreshedToken(cfg: Config, st: Stores, op: Op, p: Provider)
    requires op.Refresh? && op.provider == Some(p) && ResultOf(cfg, st, op) == Done
    ensures p in st.secrets && p in Step(cfg, st, op).secrets
    ensures var (before, e) := (st.secrets[p], Step(cfg, st, op).secrets[p]);
      && e.accessToken == op.access && e.expiresAt == op.now + 43_200_000_000
      && e.refreshToken == (if p == Slack then op.refresh else before.refreshToken)
      && e.rotationCount == before.rotationCount + 1
      && e.scope == before.scope && e.provider == before.provider && e.refreshOwner == before.refreshOwner
    ensures var status := StatusOf(Step(cfg, st, op), p);
      && status.state == Active && status.expiresAt == Some(op.now + 43_200_000_000) && status.revokedAt == None
  {
    StepAt(cfg, st, op, p);
  }

  /** What a revocation leaves behind: no secret, and metadata that say when. */
  lemma RevokedToken(cfg: Config, st: Stores, op: Op, p: Provider)
    requires op.Revoke? && op.provider == Some(p) && ResultOf(cfg, st, op) == Done
    ensures p !in Step(cfg, st, op).secrets
    ensures var status := StatusOf(Step(cfg, st, op), p);
      && status.provider == p && status.state == Revoked && status.revokedAt == Some(op.now)
      && status.refreshOwner == (if p == Google then Local else BrokerAssisted)
      && status.scopes == [] && status.expiresAt == None && status.rotationCount == 0
  {
    StepAt(cfg, st, op, p);
  }

  predicate SucceedsAt(cfg: Config, ops: seq<Op>, i: nat)
    requires i < |ops|
  {
    ResultOf(cfg, Run(cfg, ops[..i]), ops[i]) == Done
  }

  /** Without a successful operation on it a provider is not configured. */
  lemma {:induction false} NeverTouched(cfg: Config, ops: seq<Op>, p: Provider)
    requires forall i :: 0 <= i < |ops| && SucceedsAt(cfg, ops, i) ==> !Targets(ops[i], p)
    ensures Secret(Run(cfg, ops), p) == None && Meta(Run(cfg, ops), p) == None
    ensures var status := StatusOf(Run(cfg, ops), p);
      && status.state == NotConfigured && status.scopes == [] && status.expiresAt == None && status.revokedAt == None
      && status.rotationCount == 0 && status.refreshOwner == (if p == Google then Local else BrokerAssisted)
  {
    if ops != [] {
      var n := |ops| - 1;
      forall i | 0 <= i < n && SucceedsAt(cfg, ops[..n], i) ensures !Targets(ops[..n][i], p) {
        assert ops[..n][..i] == ops[..i];
        assert SucceedsAt(cfg, ops, i);
      }
      NeverTouched(cfg, ops[..n], p);
      assert SucceedsAt(cfg, ops, n) ==> !Targets(ops[n], p);
      StepAt(cfg, Run(cfg, ops[..n]), ops[n], p);
    }
  }

  /** The session stored under an id is that of the last successful start with the id. */
  lemma {:induction false} SessionFromStart(cfg: Config, ops: seq<Op>, id: string) returns (i: nat)
    requires id in Run(cfg, ops).sessions
    ensures i < |ops| && ops[i].Start? && ops[i].sessionId == id && SucceedsAt(cfg, ops, i)
    ensures Run(cfg, ops).sessions[id] == ops[i].session
  {
    var n := |ops| - 1;
    if ops[n].Start? && ops[n].sessionId == id && SucceedsAt(cfg, ops, n) {
      i := n;
    } else {
      SessionsUnchanged(cfg, Run(cfg, ops[..n]), ops[n], id);
      i := SessionFromStart(cfg, ops[..n], id);
      assert ops[..n][..i] == ops[..i];
    }
  }

  lemma SessionsUnchanged(cfg: Config, st: Stores, op: Op, id: string)
    requires !(op.Start? && op.sessionId == id && ResultOf(cfg, st, op) == Done)
    ensures id in Step(cfg, st, op).sessions <==> id in st.sessions
    ensures id in st.sessions ==> Step(cfg, st, op).sessions[id] == st.sessions[id]
  {
  }

  /** A held token goes back to a start of its provider and to a later completion that presented the id and
      the state of that start before the session expired, and no revocation succeeded since. */
  lemma {:induction false} HeldGoesBack(cfg: Config, ops: seq<Op>, p: Provider) returns (i: nat, j: nat)
    requires p in Run(cfg, ops).secrets
    ensures i < j < |ops| && SucceedsAt(cfg, ops, i) && SucceedsAt(cfg, ops, j)
    ensures ops[i].Start? && ops[i].session.provider == p && p in cfg.connectors
    ensures ops[j].Complete? && ops[j].provider == Some(p) && ops[j].sessionId == ops[i].sessionId
    ensures ops[j].state == ops[i].session.state != "" && ops[j].now < ops[i].session.expiresAt
    ensures NotRevokedAfter(cfg, ops, p, j)
  {
    var n := |ops| - 1;
    var init, op := ops[..n], ops[n];
    StepAt(cfg, Run(cfg, init), op, p);
    if op.Complete? && op.provider == Some(p) && SucceedsAt(cfg, ops, n) {
      j := n;
      CompletionSucceedsIff(cfg, Run(cfg, init), op);
      i := SessionFromStart(cfg, init, op.sessionId);
      assert init[..i] == ops[..i];
      StartSucceedsIff(cfg, Run(cfg, ops[..i]), ops[i]);
    } else {
      i, j := HeldGoesBack(cfg, init, p);
      assert init[..i] == ops[..i] && init[..j] == ops[..j];
      StillNotRevoked(cfg, ops, p, j);
    }
  }

  predicate NotRevokedAfter(cfg: Config, ops: seq<Op>, p: Provider, j: nat)
  {
    forall k :: j < k < |ops| && SucceedsAt(cfg, ops, k) ==> !(ops[k].Revoke? && ops[k].provider == Some(p))
  }

  lemma StillNotRevoked(cfg: Config, ops: seq<Op>, p: Provider, j: nat)
    requires j < |ops| - 1 && NotRevokedAfter(cfg, ops[..|ops| - 1], p, j)
    requires SucceedsAt(cfg, ops, |ops| - 1) ==> !(ops[|ops| - 1].Revoke? && ops[|ops| - 1].provider == Some(p))
    ensures NotRevokedAfter(cfg, ops, p, j)
  {
    var init := ops[..|ops| - 1];
    forall k | j < k < |ops| && SucceedsAt(cfg, ops, k) ensures !(ops[k].Revoke? && ops[k].provider == Some(p)) {
      if k < |ops| - 1 {
        assert init[..k] == ops[..k];
        assert SucceedsAt(cfg, init, k);
      }
    }
  }

  /** Refreshing works exactly while the broker is usable and the last completion was not revoked; after a
      revocation it fails until the next completion. */
  lemma RefreshNeedsCompletion(cfg: Config, ops: seq<Op>, op: Op)
    requires op.Refresh?
    ensures ResultOf(cfg, Run(cfg, ops), op) == Done <==>
      && cfg.mode == Runtime && cfg.endpoint != "" && op.provider != None && op.apply
      && Holds(cfg, ops, op.provider.value)
  {
    GuardIff(cfg, op.provider, op.apply);
    if op.provider != None {
      SecretTracksHistory(cfg, ops, op.provider.value);
    }
  }

  /** A refresh keeps scopes and owner, Google's refresh token, and everything of the other provider. */
  lemma RefreshKeepsGrant(cfg: Config, ops: seq<Op>, op: Op, p: Provider)
    requires op.Refresh?
    ensures var before, after := Run(cfg, ops), Step(cfg, Run(cfg, ops), op);
      && StatusOf(after, p).scopes == StatusOf(before, p).scopes
      && StatusOf(after, p).refreshOwner == StatusOf(before, p).refreshOwner
      && (op.provider != Some(p) ==> StatusOf(after, p) == StatusOf(before, p) && Secret(after, p) == Secret(before, p))
      && (p == Google && Secret(before, p) != None ==>
            Secret(after, p) != None && Secret(after, p).value.refreshToken == Secret(before, p).value.refreshToken)
  {
    StoresAgree(cfg, ops, p);
    StepAt(cfg, Run(cfg, ops), op, p);
  }
}
