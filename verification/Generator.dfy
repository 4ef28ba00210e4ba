/**
 The config generator: the four-table join, the exclusion filters, and the entry built for
 each endpoint that survives them. Secrets and environment variables are oracles.
 */
module Generator {
  import opened Prelude
  import opened Schema
  import opened Connection

  // ---------- Text helpers (ASCII) ----------

  function LowerChar(c: char): char {
    if 'A' <= c <= 'Z' then c - 'A' + 'a' else c
  }

  function UpperChar(c: char): char {
    if 'a' <= c <= 'z' then c - 'a' + 'A' else c
  }

  function Lower(s: string): string {
    seq(|s|, i requires 0 <= i < |s| => LowerChar(s[i]))
  }

  function Upper(s: string): string {
    seq(|s|, i requires 0 <= i < |s| => UpperChar(s[i]))
  }

  function StripSlashes(s: string): string {
    if s != "" && s[|s| - 1] == '/' then StripSlashes(s[..|s| - 1]) else s
  }

  function StripApiSuffix(s: string): string {
    var bare := StripSlashes(s);
    if |bare| >= 4 && bare[|bare| - 4..] == "/api" then bare[..|bare| - 4] else bare
  }

  // ---------- Rows, entries, oracles ----------

  /** What the outside answers: the resolver, the Doppler map behind a reference (None when the
      reference, its token or the fetch fails), and the process environment. */
  datatype Outside = Outside(
    resolve: string -> Option<string>,
    doppler: string -> Option<map<string, string>>,
    getenv: string -> Option<string>)

  datatype JoinRow = JoinRow(
    endpoint: Id, priority: int, weight: int, endpointStatus: Status, override: Override,
    modelName: string, group: string, account: Id, secretRef: string, accountStatus: Status,
    provider: Id, providerKind: string)

  datatype Params = Params(model: string, apiKey: string, order: int, weight: int, apiBase: Option<string>)

  datatype Entry = Entry(modelName: string, params: Params)

  datatype Config = Config(modelList: seq<Entry>)

  const CLOUD_PROVIDERS := {"openai", "anthropic", "gemini", "cohere", "mistral", "azure"}

  predicate Joined(t: Tables, e: Id) {
    && e in t.endpoints
    && t.endpoints[e].model in t.models
    && t.endpoints[e].account in t.accounts
    && t.accounts[t.endpoints[e].account].provider in t.providers
  }

  function RowOf(t: Tables, e: Id): JoinRow
    requires Joined(t, e)
  {
    var endpoint := t.endpoints[e];
    var model := t.models[endpoint.model];
    var account := t.accounts[endpoint.account];
    JoinRow(e, endpoint.priority, endpoint.weight, endpoint.health.status, endpoint.override,
            model.name, model.group, endpoint.account, account.secretRef, account.health.status,
            account.provider, t.providers[account.provider].kind)
  }

  /** The inner join for one node, in the given row order. */
  function SelectNode(t: Tables, node: Id, order: seq<Id>): seq<JoinRow> {
    if order == [] then []
    else
      var e := order[|order| - 1];
      SelectNode(t, node, order[..|order| - 1])
      + (if Joined(t, e) && t.endpoints[e].node == node then [RowOf(t, e)] else [])
  }

  // ---------- Which endpoints may be routed ----------

  /** The exclusion rule: a disabled or inactive account always excludes, force-disabled always
      excludes, and otherwise only force-active may ignore the other health states. */
  predicate Routable(override: Override, endpoint: Status, account: Status) {
    && override != ForceDisabled
    && account != Disabled && account != Inactive
    && (override == ForceActive
        || (account != Cooldown && endpoint != Disabled && endpoint != Cooldown && endpoint != Degraded))
  }

  // ---------- The entry of one endpoint ----------

  function ModelString(kind: string, name: string): string {
    if kind == "nim" then "openai/" + name
    else if kind in CLOUD_PROVIDERS then name
    else kind + "/" + name
  }

  /** Python's `a or b` on optional text: the empty string does not count. */
  function NonEmpty(s: Option<string>): Option<string> {
    if s == Some("") then None else s
  }

  function ApiBase(row: JoinRow, kind: string, outside: Outside): Option<string> {
    var byId, byKind := Upper(row.provider) + "_API_BASE", Upper(kind) + "_API_BASE";
    var secrets := outside.doppler(row.secretRef);
    if secrets.Some? && byId in secrets.value then Some(secrets.value[byId])
    else if secrets.Some? && byKind in secrets.value then Some(secrets.value[byKind])
    else NonEmpty(outside.getenv(byId)).OrElse(outside.getenv(byKind))
  }

  function EntryFor(row: JoinRow, apiKey: string, outside: Outside): Entry {
    var kind := Lower(row.providerKind);
    var base := if kind in CLOUD_PROVIDERS then None else NonEmpty(ApiBase(row, kind, outside));
    Entry(row.group,
          Params(ModelString(kind, row.modelName), apiKey,
                 if row.override == ForceActive then 1 else row.priority, row.weight,
                 if base.Some? && kind == "ollama" then Some(StripApiSuffix(base.value)) else base))
  }

  function Emit(row: JoinRow, outside: Outside): Option<Entry> {
    if !Routable(row.override, row.endpointStatus, row.accountStatus) then None
    else
      var apiKey := outside.resolve(row.secretRef);
      if apiKey.None? then None else Some(EntryFor(row, apiKey.value, outside))
  }

  function Compile(rows: seq<JoinRow>, outside: Outside): seq<Entry> {
    if rows == [] then []
    else
      var entry := Emit(rows[|rows| - 1], outside);
      Compile(rows[..|rows| - 1], outside) + (if entry.Some? then [entry.value] else [])
  }

  function Generate(t: Tables, outside: Outside, node: Id, order: seq<Id>): Config {
    Config(Compile(SelectNode(t, node, order), outside))
  }

  // ---------- The procedure ----------

  method ResolveApiBase(row: JoinRow, kind: string, outside: Outside) returns (base: Option<string>)
    ensures base == ApiBase(row, kind, outside)
  {
    var byId := Upper(row.provider) + "_API_BASE";
    var byKind := Upper(kind) + "_API_BASE";
    var secrets := outside.doppler(row.secretRef);
    if secrets.Some? {
      if byId in secrets.value { return Some(secrets.value[byId]); }
      if byKind in secrets.value { return Some(secrets.value[byKind]); }
    }
    var local := outside.getenv(byId);
    if local.Some? && local.value != "" { return local; }
    return outside.getenv(byKind);
  }

  method BuildEntry(row: JoinRow, apiKey: string, outside: Outside) returns (entry: Entry)
    ensures entry == EntryFor(row, apiKey, outside)
  {
    var kind := Lower(row.providerKind);
    var model := row.modelName;
    if kind == "nim" {
      model := "openai/" + row.modelName;
    } else if kind !in CLOUD_PROVIDERS {
      model := kind + "/" + row.modelName;
    }
    var params := Params(model, apiKey, row.priority, row.weight, None);
    if kind !in CLOUD_PROVIDERS {
      var base := ResolveApiBase(row, kind, outside);
      if base.Some? && base.value != "" {
        if kind == "ollama" {
          base := Some(StripApiSuffix(base.value));
        }
        params := params.(apiBase := base);
      }
    }
    if row.override == ForceActive {
      params := params.(order := 1);
    }
    return Entry(row.group, params);
  }

  method GenerateConfig(db: Database, outside: Outside, node: Id, order: seq<Id>) returns (config: Config)
    ensures config == Generate(db.Registry(), outside, node, order)
  {
    var rows := SelectNode(db.Registry(), node, order);
    var modelList := [];
    for i := 0 to |rows|
      invariant modelList == Compile(rows[..i], outside)
    {
      var row := rows[i];
      assert rows[..i + 1][..i] == rows[..i];
      if row.override == ForceDisabled { continue; }
      if row.override != ForceActive {
        if row.endpointStatus in {Disabled, Cooldown, Degraded} { continue; }
        if row.accountStatus in {Disabled, Inactive, Cooldown} { continue; }
      } else {
        if row.accountStatus in {Disabled, Inactive} { continue; }
      }
      var apiKey := outside.resolve(row.secretRef);
      if apiKey.None? { continue; }
      var entry := BuildEntry(row, apiKey.value, outside);
      modelList := modelList + [entry];
    }
    assert rows[..|rows|] == rows;
    return Config(modelList);
  }

  // ---------- What a config contains ----------

  predicate EmittedBy(t: Tables, outside: Outside, e: Id, entry: Entry) {
    Joined(t, e) && Emit(RowOf(t, e), outside) == Some(entry)
  }

  lemma {:induction false} CompileMeaning(rows: seq<JoinRow>, outside: Outside, entry: Entry)
    ensures entry in Compile(rows, outside) <==> exists r :: r in rows && Emit(r, outside) == Some(entry)
  {
    if rows != [] {
      var n := |rows| - 1;
      assert rows == rows[..n] + [rows[n]];
      CompileMeaning(rows[..n], outside, entry);
      if entry in Compile(rows[..n], outside) {
        var r :| r in rows[..n] && Emit(r, outside) == Some(entry);
        assert r in rows;
      }
    }
  }

  lemma {:induction false} SelectNodeMeaning(t: Tables, node: Id, order: seq<Id>, row: JoinRow)
    ensures row in SelectNode(t, node, order)
       <==> row.endpoint in order && Joined(t, row.endpoint)
            && t.endpoints[row.endpoint].node == node && row == RowOf(t, row.endpoint)
  {
    if order != [] {
      var n := |order| - 1;
      assert order == order[..n] + [order[n]];
      SelectNodeMeaning(t, node, order[..n], row);
    }
  }

  // ---------- What a config promises, column by column ----------

  /** Which statuses are served: with no override, only healthy ones on both sides; with force-active, any
      endpoint of an account that is not disabled or inactive; with force-disabled, none. */
  predicate Served(override: Override, endpoint: Status, account: Status) {
    match override
    case NoOverride =>
      endpoint in {Active, Inactive, Probing, Recovered} && account in {Active, Degraded, Probing, Recovered}
    case ForceActive => account in {Active, Cooldown, Degraded, Probing, Recovered}
    case ForceDisabled => false
  }

  lemma RoutableIffServed(override: Override, endpoint: Status, account: Status)
    ensures Routable(override, endpoint, account) <==> Served(override, endpoint, account)
  {
  }

  /** An empty base counts as none, and for `ollama` trailing slashes and `/api` are dropped. */
  predicate Shown(base: Option<string>, kind: string, text: string) {
    && (text == "" ==> base == None)
    && (text != "" && kind == "ollama" ==> base == Some(StripApiSuffix(text)))
    && (text != "" && kind != "ollama" ==> base == Some(text))
  }

  /** Doppler before the environment, and in both the provider's id before its kind. */
  predicate IsApiBase(provider: Id, kind: string, secrets: Option<map<string, string>>,
                      getenv: string -> Option<string>, base: Option<string>) {
    var byId, byKind := Upper(provider) + "_API_BASE", Upper(kind) + "_API_BASE";
    var hasId, hasKind := secrets.Some? && byId in secrets.value, secrets.Some? && byKind in secrets.value;
    var local := getenv(byId);
    && (hasId ==> Shown(base, kind, secrets.value[byId]))
    && (!hasId && hasKind ==> Shown(base, kind, secrets.value[byKind]))
    && (!hasId && !hasKind && local.Some? && local.value != "" ==> Shown(base, kind, local.value))
    && (!hasId && !hasKind && (local == None || local == Some("")) ==>
          match getenv(byKind)
          case None => base == None
          case Some(text) => Shown(base, kind, text))
  }

  /** Every field of the entry of an endpoint. */
  predicate IsEntry(e: Endpoint, model: Model, account: Account, provider: Provider, outside: Outside, entry: Entry) {
    var kind, p := Lower(provider.kind), entry.params;
    && entry.modelName == model.group && outside.resolve(account.secretRef) == Some(p.apiKey) && p.weight == e.weight
    && (e.override == ForceActive ==> p.order == 1)
    && (e.override != ForceActive ==> p.order == e.priority)
    && if kind in {"openai", "anthropic", "gemini", "cohere", "mistral", "azure"} then
         p.model == model.name && p.apiBase == None
       else
         && p.model == (if kind == "nim" then "openai" else kind) + "/" + model.name
         && IsApiBase(account.provider, kind, outside.doppler(account.secretRef), outside.getenv, p.apiBase)
  }

  lemma EmitColumns(t: Tables, e: Id, outside: Outside, entry: Entry)
    requires Joined(t, e)
    ensures var x := t.endpoints[e];
            var account := t.accounts[x.account];
            Emit(RowOf(t, e), outside) == Some(entry)
            <==> && Served(x.override, x.health.status, account.health.status)
                 && IsEntry(x, t.models[x.model], account, t.providers[account.provider], outside, entry)
  {
    var row := RowOf(t, e);
    RoutableIffServed(row.override, row.endpointStatus, row.accountStatus);
    var kind, key := Lower(row.providerKind), outside.resolve(row.secretRef);
    if key.Some? {
      ModelStringColumns(kind, row.modelName);
      if kind !in CLOUD_PROVIDERS { ApiBaseColumns(row, kind, outside, entry.params.apiBase); }
      var made := EntryFor(row, key.value, outside);
      assert made.params == entry.params && made.modelName == entry.modelName ==> made == entry;
      var p, q := made.params, entry.params;
      assert (p.model == q.model && p.apiKey == q.apiKey && p.order == q.order && p.weight == q.weight
              && p.apiBase == q.apiBase) ==> p == q;
    }
  }

  lemma ModelStringColumns(kind: string, name: string)
    ensures ModelString(kind, name)
         == if kind in {"openai", "anthropic", "gemini", "cohere", "mistral", "azure"} then name
            else (if kind == "nim" then "openai" else kind) + "/" + name
  {
    assert "openai/" + name == "openai" + "/" + name;
  }

  lemma ApiBaseColumns(row: JoinRow, kind: string, outside: Outside, base: Option<string>)
    ensures var found := NonEmpty(ApiBase(row, kind, outside));
            IsApiBase(row.provider, kind, outside.doppler(row.secretRef), outside.getenv, base)
            <==> base == if found.Some? && kind == "ollama" then Some(StripApiSuffix(found.value)) else found
  {
  }

  lemma {:induction false} StripSlashesMeaning(s: string)
    ensures var bare := StripSlashes(s);
            && bare <= s && (bare != "" ==> bare[|bare| - 1] != '/')
            && (forall i :: |bare| <= i < |s| ==> s[i] == '/')
  {
    if s != "" && s[|s| - 1] == '/' {
      StripSlashesMeaning(s[..|s| - 1]);
    }
  }

  /** Only trailing slashes and one `/api` before them go. */
  lemma StripApiSuffixMeaning(s: string)
    ensures var bare, r := StripSlashes(s), StripApiSuffix(s);
            bare == r + "/api" || (bare == r && !(|r| >= 4 && r[|r| - 4..] == "/api"))
  {
  }

  lemma CaseMeaning(s: string, i: nat)
    requires i < |s|
    ensures |Lower(s)| == |s| && |Upper(s)| == |s|
    ensures Lower(s)[i] as int == if 'A' <= s[i] <= 'Z' then s[i] as int + 32 else s[i] as int
    ensures Upper(s)[i] as int == if 'a' <= s[i] <= 'z' then s[i] as int - 32 else s[i] as int
  {
  }

  /** A config holds an entry exactly if it is the entry of a served endpoint of the node whose model,
      account and provider exist, with every field as its row and the outside say. */
  lemma ConfigColumns(t: Tables, outside: Outside, node: Id, order: seq<Id>, entry: Entry)
    requires forall e :: e in t.endpoints ==> e in order
    ensures entry in Generate(t, outside, node, order).modelList
       <==> exists e :: && e in t.endpoints && t.endpoints[e].node == node && t.endpoints[e].model in t.models
                        && t.endpoints[e].account in t.accounts
                        && t.accounts[t.endpoints[e].account].provider in t.providers
                        && var account := t.accounts[t.endpoints[e].account];
                           && Served(t.endpoints[e].override, t.endpoints[e].health.status, account.health.status)
                           && IsEntry(t.endpoints[e], t.models[t.endpoints[e].model], account,
                                      t.providers[account.provider], outside, entry)
  {
    ConfigHoldsOwnEndpoints(t, outside, node, order, entry);
    forall e | Joined(t, e)
      ensures EmittedBy(t, outside, e, entry)
         <==> var account := t.accounts[t.endpoints[e].account];
              && Served(t.endpoints[e].override, t.endpoints[e].health.status, account.health.status)
              && IsEntry(t.endpoints[e], t.models[t.endpoints[e].model], account, t.providers[account.provider],
                         outside, entry)
    {
      EmitColumns(t, e, outside, entry);
    }
  }

  lemma {:induction false} SelectNodeAppend(t: Tables, node: Id, a: seq<Id>, b: seq<Id>)
    ensures SelectNode(t, node, a + b) == SelectNode(t, node, a) + SelectNode(t, node, b)
  {
    if b == [] {
      assert a + b == a;
    } else {
      assert (a + b)[..|a + b| - 1] == a + b[..|b| - 1] && (a + b)[|a + b| - 1] == b[|b| - 1];
      SelectNodeAppend(t, node, a, b[..|b| - 1]);
    }
  }

  lemma {:induction false} CompileAppend(a: seq<JoinRow>, b: seq<JoinRow>, outside: Outside)
    ensures Compile(a + b, outside) == Compile(a, outside) + Compile(b, outside)
  {
    if b == [] {
      assert a + b == a;
    } else {
      assert (a + b)[..|a + b| - 1] == a + b[..|b| - 1] && (a + b)[|a + b| - 1] == b[|b| - 1];
      CompileAppend(a, b[..|b| - 1], outside);
    }
  }

  /** The entries of a config stand in the order of the rows. */
  lemma ConfigKeepsOrder(t: Tables, outside: Outside, node: Id, a: seq<Id>, b: seq<Id>)
    ensures Generate(t, outside, node, a + b).modelList
         == Generate(t, outside, node, a).modelList + Generate(t, outside, node, b).modelList
  {
    SelectNodeAppend(t, node, a, b);
    CompileAppend(SelectNode(t, node, a), SelectNode(t, node, b), outside);
  }

  /** Least privilege, both ways: a node's config holds exactly the entries of the endpoints
      bound to that node, so every API key in it belongs to an account of such an endpoint. */
  lemma ConfigHoldsOwnEndpoints(t: Tables, outside: Outside, node: Id, order: seq<Id>, entry: Entry)
    requires forall e :: e in t.endpoints ==> e in order
    ensures entry in Generate(t, outside, node, order).modelList
       <==> exists e :: e in t.endpoints && t.endpoints[e].node == node && EmittedBy(t, outside, e, entry)
    ensures entry in Generate(t, outside, node, order).modelList ==>
              exists e :: e in t.endpoints && t.endpoints[e].node == node && t.endpoints[e].account in t.accounts
                          && outside.resolve(t.accounts[t.endpoints[e].account].secretRef) == Some(entry.params.apiKey)
  {
    var rows := SelectNode(t, node, order);
    CompileMeaning(rows, outside, entry);
    if exists r :: r in rows && Emit(r, outside) == Some(entry) {
      var r :| r in rows && Emit(r, outside) == Some(entry);
      SelectNodeMeaning(t, node, order, r);
      assert EmittedBy(t, outside, r.endpoint, entry);
    }
    if exists e :: e in t.endpoints && t.endpoints[e].node == node && EmittedBy(t, outside, e, entry) {
      var e :| e in t.endpoints && t.endpoints[e].node == node && EmittedBy(t, outside, e, entry);
      SelectNodeMeaning(t, node, order, RowOf(t, e));
    }
  }
}
