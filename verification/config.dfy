/** The client configuration builder of src/grid_client/mod.rs. The preset endpoint table is a parameter. */
module Configs {
  import opened GridErrors
  import opened HexCodec
  import opened Text

  datatype Service = Substrate | GridProxy | Graphql | Relay
  datatype Preset = Devnet | Qanet | Testnet | Mainnet

  /** What `network_endpoints` lists for each preset. */
  type Table = Preset -> Service -> seq<string>

  // ---- URLs ----

  function TrimSlashes(s: string): string {
    if s != [] && s[|s| - 1] == '/' then TrimSlashes(s[..|s| - 1]) else s
  }

  function NormalizeUrl(url: string): string {
    TrimSlashes(Trim(url))
  }

  function NormalizeUrls(urls: seq<string>): seq<string> {
    if urls == [] then []
    else (if NormalizeUrl(urls[0]) != "" then [NormalizeUrl(urls[0])] else []) + NormalizeUrls(urls[1..])
  }

  function First(urls: seq<string>): string {
    if urls == [] then "" else urls[0]
  }

  function ChoosePrimary(current: string, urls: seq<string>): string {
    if NormalizeUrl(current) != "" then NormalizeUrl(current) else First(urls)
  }

  predicate EndsInSlash(s: string) {
    s != "" && s[|s| - 1] == '/'
  }

  lemma {:induction false} TrimmedOfSlashes(s: string)
    ensures !EndsInSlash(TrimSlashes(s))
    ensures !EndsInSlash(s) ==> TrimSlashes(s) == s
    ensures TrimSlashes(s) <= s
  {
    if s != [] && s[|s| - 1] == '/' { TrimmedOfSlashes(s[..|s| - 1]); }
  }

  /** Normalising trims, and then drops slashes at the end and nothing else. */
  lemma {:induction false} SlashesDrop(s: string) returns (n: nat)
    ensures s == TrimSlashes(s) + seq(n, _ => '/')
  {
    n := 0;
    if s != [] && s[|s| - 1] == '/' {
      var m := SlashesDrop(s[..|s| - 1]);
      n := m + 1;
      assert seq(n, _ => '/') == seq(m, _ => '/') + ['/'];
      assert s == s[..|s| - 1] + ['/'];
    }
  }

  /** Lists are normalised entry by entry, in order. */
  lemma {:induction false} NormalizingAppends(a: seq<string>, b: seq<string>)
    ensures NormalizeUrls(a + b) == NormalizeUrls(a) + NormalizeUrls(b)
  {
    hide NormalizeUrl;
    if a == [] {
      assert a + b == b;
    } else {
      var one := if NormalizeUrl(a[0]) != "" then [NormalizeUrl(a[0])] else [];
      NormalizingAppends(a[1..], b);
      assert (a + b)[1..] == a[1..] + b && (a + b)[0] == a[0];
      assert NormalizeUrls(a + b) == one + NormalizeUrls(a[1..] + b);
      assert NormalizeUrls(a) == one + NormalizeUrls(a[1..]);
      hide NormalizeUrls;
      Regroup(one, NormalizeUrls(a[1..]), NormalizeUrls(b));
    }
  }

  lemma Regroup(a: seq<string>, b: seq<string>, c: seq<string>)
    ensures a + (b + c) == (a + b) + c
  {
  }

  /** A list keeps its usable entries, each normalised, in order. */
  lemma CandidatesKeepOrder(a: seq<string>, url: string, b: seq<string>)
    ensures NormalizeUrls(a + [url] + b)
            == NormalizeUrls(a) + (if NormalizeUrl(url) != "" then [NormalizeUrl(url)] else []) + NormalizeUrls(b)
  {
    NormalizingAppends(a + [url], b);
    NormalizingAppends(a, [url]);
    hide NormalizeUrl;
    NormalizesOne(url);
    hide NormalizeUrls;
  }

  lemma NormalizesOne(url: string)
    ensures NormalizeUrls([url]) == if NormalizeUrl(url) != "" then [NormalizeUrl(url)] else []
  {
    hide NormalizeUrl;
    assert [url][1..] == [];
  }

  /** Normalising twice changes nothing exactly when no white space was left before the slashes. */
  lemma NormalizeIsIdempotentIff(url: string)
    ensures var once := NormalizeUrl(url);
            NormalizeUrl(once) == once <==> (once == "" || !IsSpace(once[|once| - 1]))
  {
    var once := NormalizeUrl(url);
    TrimTrims(url);
    TrimmedOfSlashes(Trim(url));
    TrimTrims(once);
    TrimmedOfSlashes(once);
    TrimmedOfSlashes(Trim(once));
    TrimShortens(once);
    assert NormalizeUrl(once) == once ==> |once| == |Trim(once)| && once == Trim(once);
  }

  lemma {:induction false} TrimEndShortens(s: string)
    ensures |TrimEnd(s)| <= |s|
  {
    if s != [] && IsSpace(s[|s| - 1]) { TrimEndShortens(s[..|s| - 1]); }
  }

  lemma {:induction false} TrimStartShortens(s: string)
    ensures |TrimStart(s)| <= |s|
  {
    if s != [] && IsSpace(s[0]) { TrimStartShortens(s[1..]); }
  }

  lemma TrimShortens(s: string)
    ensures |Trim(s)| <= |s|
  {
    TrimStartShortens(s);
    TrimEndShortens(TrimStart(s));
  }

  lemma NothingNormalized()
    ensures NormalizeUrls([]) == []
  {
  }

  lemma {:induction false} CandidatesAreClean(urls: seq<string>)
    ensures forall u :: u in NormalizeUrls(urls) ==> u != "" && !EndsInSlash(u)
  {
    if urls != [] {
      TrimmedOfSlashes(Trim(urls[0]));
      CandidatesAreClean(urls[1..]);
    }
  }

  // ---- Presets ----

  /** `normalize_network_name`, for the names that have a preset. */
  function FindPreset(name: string): Option<Preset> {
    var n := Lower(Trim(name));
    if n == "dev" || n == "devnet" then Some(Devnet)
    else if n == "qa" || n == "qanet" then Some(Qanet)
    else if n == "test" || n == "testnet" then Some(Testnet)
    else if n == "main" || n == "mainnet" then Some(Mainnet)
    else None
  }

  /** The text is that word in capital or small letters. */
  predicate Spells(s: string, word: string) {
    && |s| == |word|
    && forall i :: 0 <= i < |s| ==> s[i] == word[i] || ('A' <= s[i] <= 'Z' && s[i] as int + 32 == word[i] as int)
  }

  function Word(p: Preset): string {
    match p
    case Devnet => "dev"
    case Qanet => "qa"
    case Testnet => "test"
    case Mainnet => "main"
  }

  lemma LowerSpells(s: string, word: string)
    requires forall i :: 0 <= i < |word| ==> 'a' <= word[i] <= 'z'
    ensures Lower(s) == word <==> Spells(s, word)
  {
    if Lower(s) == word { assert forall i :: 0 <= i < |s| ==> Lower(s)[i] == LowerChar(s[i]) == word[i]; }
  }

  /** A preset has two names, its word alone and with "net" after it, in capital or small letters and between any
      white space; no other text names it. */
  lemma PresetIsNamed(name: string, p: Preset)
    ensures FindPreset(name) == Some(p) <==> Spells(Trim(name), Word(p)) || Spells(Trim(name), Word(p) + "net")
  {
    var s := Trim(name);
    hide Trim, Spells;
    LowerSpells(s, "dev");
    LowerSpells(s, "devnet");
    LowerSpells(s, "qa");
    LowerSpells(s, "qanet");
    LowerSpells(s, "test");
    LowerSpells(s, "testnet");
    LowerSpells(s, "main");
    LowerSpells(s, "mainnet");
    hide Lower;
    assert "dev" + "net" == "devnet" && "qa" + "net" == "qanet";
    assert "test" + "net" == "testnet" && "main" + "net" == "mainnet";
    assert "dev"[0] == 'd' && "qa"[0] == 'q' && "test"[0] == 't' && "main"[0] == 'm';
  }

  datatype Endpoints = Endpoints(primary: string, candidates: seq<string>)

  function PresetEndpoints(table: Table, p: Preset, s: Service): Endpoints {
    Endpoints(First(NormalizeUrls(table(p)(s))), NormalizeUrls(table(p)(s)))
  }

  datatype Config = Config(network: Preset, substrate: Endpoints, gridProxy: Endpoints, graphql: Endpoints,
                           relay: Endpoints, httpTimeout: nat, rmbTimeout: nat)
  {
    function At(s: Service): Endpoints {
      match s
      case Substrate => substrate
      case GridProxy => gridProxy
      case Graphql => graphql
      case Relay => relay
    }

    function With(s: Service, e: Endpoints): Config {
      match s
      case Substrate => this.(substrate := e)
      case GridProxy => this.(gridProxy := e)
      case Graphql => this.(graphql := e)
      case Relay => this.(relay := e)
    }
  }

  function FromPreset(table: Table, p: Preset, httpTimeout: nat, rmbTimeout: nat): Config {
    Config(p, PresetEndpoints(table, p, Substrate), PresetEndpoints(table, p, GridProxy),
           PresetEndpoints(table, p, Graphql), PresetEndpoints(table, p, Relay), httpTimeout, rmbTimeout)
  }

  function Built(e: Endpoints): Endpoints {
    var candidates := NormalizeUrls(e.candidates);
    Endpoints(ChoosePrimary(e.primary, candidates), candidates)
  }

  function Build(c: Config): Config {
    c.(substrate := Built(c.substrate), gridProxy := Built(c.gridProxy), graphql := Built(c.graphql),
       relay := Built(c.relay))
  }

  // ---- Sequences of calls ----

  datatype Call =
    | Network(name: string)
    | Url(service: Service, url: string)
    | Urls(service: Service, urls: seq<string>)
    | HttpTimeout(seconds: nat)
    | RmbTimeout(seconds: nat)

  function Apply(table: Table, c: Config, call: Call): Option<Config> {
    match call
    case Network(name) =>
      var preset := FindPreset(name);
      if preset.None? then None else Some(FromPreset(table, preset.value, c.httpTimeout, c.rmbTimeout))
    case Url(s, url) => Some(c.With(s, c.At(s).(primary := url)))
    case Urls(s, urls) => Some(c.With(s, Endpoints("", urls)))
    case HttpTimeout(d) => Some(c.(httpTimeout := d))
    case RmbTimeout(d) => Some(c.(rmbTimeout := d))
  }

  /** The configuration after the calls, unless one names an unknown network, which panics. */
  function Run(table: Table, calls: seq<Call>): Option<Config> {
    if calls == [] then Some(FromPreset(table, Devnet, 30, 30))
    else
      var before := Run(table, calls[..|calls| - 1]);
      if before.None? then None else Apply(table, before.value, calls[|calls| - 1])
  }

  /** The candidate list set last: by the last plural setter or preset. */
  function CandidatesSet(table: Table, calls: seq<Call>, s: Service): seq<string> {
    if calls == [] then NormalizeUrls(table(Devnet)(s))
    else
      var last := calls[|calls| - 1];
      if last.Urls? && last.service == s then last.urls
      else if last.Network? && FindPreset(last.name).Some? then NormalizeUrls(table(FindPreset(last.name).value)(s))
      else CandidatesSet(table, calls[..|calls| - 1], s)
  }

  predicate Concerns(call: Call, s: Service) {
    call.Network? || (call.Url? && call.service == s) || (call.Urls? && call.service == s)
  }

  lemma {:induction false} CandidatesAreLastSet(table: Table, calls: seq<Call>, s: Service)
    requires Run(table, calls).Some?
    ensures Run(table, calls).value.At(s).candidates == CandidatesSet(table, calls, s)
  {
    hide NormalizeUrls, FindPreset;
    if calls != [] { CandidatesAreLastSet(table, calls[..|calls| - 1], s); }
  }

  lemma {:induction false} OtherCallsKeepPrimary(table: Table, calls: seq<Call>, i: nat, s: Service)
    requires i <= |calls| && Run(table, calls).Some? && forall j :: i <= j < |calls| ==> !Concerns(calls[j], s)
    ensures Run(table, calls[..i]).Some?
    ensures Run(table, calls).value.At(s).primary == Run(table, calls[..i]).value.At(s).primary
    decreases |calls|
  {
    if i == |calls| {
      assert calls[..i] == calls;
    } else {
      var before := calls[..|calls| - 1];
      assert before[..i] == calls[..i];
      OtherCallsKeepPrimary(table, before, i, s);
    }
  }

  /** The primary URL a call leaves behind; a list leaves none. */
  function PrimarySet(table: Table, call: Call, s: Service): string {
    match call
    case Url(_, url) => url
    case Network(name) => First(NormalizeUrls(table(FindPreset(name).GetOr(Devnet))(s)))
    case _ => ""
  }

  /** The primary URL that is built: the last call concerning the service decides. A URL wins when it is not
      blank; a list, a blank URL and a preset whose first entry is blank give the first candidate. */
  lemma LastCallDecidesPrimary(table: Table, calls: seq<Call>, i: nat, s: Service)
    requires Run(table, calls).Some? && i < |calls| && Concerns(calls[i], s)
    requires forall j :: i < j < |calls| ==> !Concerns(calls[j], s)
    ensures var built := Build(Run(table, calls).value).At(s);
            && built.candidates == NormalizeUrls(CandidatesSet(table, calls, s))
            && built.primary == ChoosePrimary(PrimarySet(table, calls[i], s), built.candidates)
  {
    hide NormalizeUrl, NormalizeUrls, ChoosePrimary, CandidatesSet;
    CandidatesAreLastSet(table, calls, s);
    OtherCallsKeepPrimary(table, calls, i + 1, s);
    var upTo := calls[..i + 1];
    assert upTo[..|upTo| - 1] == calls[..i] && upTo[|upTo| - 1] == calls[i];
    CallSetsPrimary(table, calls[..i], calls[i], s);
  }

  lemma CallSetsPrimary(table: Table, before: seq<Call>, call: Call, s: Service)
    requires Run(table, before).Some? && Concerns(call, s) && Apply(table, Run(table, before).value, call).Some?
    ensures Apply(table, Run(table, before).value, call).value.At(s).primary == PrimarySet(table, call, s)
  {
    hide NormalizeUrls, FindPreset;
  }

  /** With no such call the development preset stays. */
  lemma UntouchedKeepsDevnet(table: Table, calls: seq<Call>, s: Service)
    requires Run(table, calls).Some? && forall call :: call in calls ==> !Concerns(call, s)
    ensures Build(Run(table, calls).value).At(s) == Built(PresetEndpoints(table, Devnet, s))
  {
    CandidatesAreLastSet(table, calls, s);
    assert calls[..0] == [];
    assert forall j :: 0 <= j < |calls| ==> calls[j] in calls;
    OtherCallsKeepPrimary(table, calls, 0, s);
    NothingSet(table, calls, s);
  }

  lemma {:induction false} NothingSet(table: Table, calls: seq<Call>, s: Service)
    requires forall call :: call in calls ==> !Concerns(call, s)
    ensures CandidatesSet(table, calls, s) == NormalizeUrls(table(Devnet)(s))
  {
    if calls != [] {
      assert calls[|calls| - 1] in calls;
      NothingSet(table, calls[..|calls| - 1], s);
    }
  }

  /** No built URL ends in a slash, and no candidate is empty; a primary is empty only when nothing is left. */
  lemma BuiltUrlsAreClean(c: Config, s: Service)
    ensures var e := Build(c).At(s);
            && !EndsInSlash(e.primary) && (e.primary == "" ==> e.candidates == [])
            && forall u :: u in e.candidates ==> u != "" && !EndsInSlash(u)
  {
    CandidatesAreClean(c.At(s).candidates);
    TrimmedOfSlashes(Trim(c.At(s).primary));
  }

  function LastTimeout(calls: seq<Call>, rmb: bool): nat {
    if calls == [] then 30
    else
      var last := calls[|calls| - 1];
      if rmb && last.RmbTimeout? then last.seconds
      else if !rmb && last.HttpTimeout? then last.seconds
      else LastTimeout(calls[..|calls| - 1], rmb)
  }

  /** Timeouts survive every other call, presets included. */
  lemma {:induction false} TimeoutsSurvive(table: Table, calls: seq<Call>)
    requires Run(table, calls).Some?
    ensures Build(Run(table, calls).value).httpTimeout == LastTimeout(calls, false)
    ensures Build(Run(table, calls).value).rmbTimeout == LastTimeout(calls, true)
  {
    hide PresetEndpoints, FindPreset, Built, Config.At;
    if calls != [] { TimeoutsSurvive(table, calls[..|calls| - 1]); }
  }

  // ---- The builder in place ----

  lemma NormalizeStep(urls: seq<string>, i: nat)
    requires i < |urls|
    ensures NormalizeUrls(urls[i..])
         == (if NormalizeUrl(urls[i]) != "" then [NormalizeUrl(urls[i])] else []) + NormalizeUrls(urls[i + 1..])
  {
    hide NormalizeUrl;
    assert urls[i..][1..] == urls[i + 1..];
  }

  class GridClientConfigBuilder {
    const table: Table
    var config: Config

    constructor (table: Table)
      ensures this.table == table && Run(table, []) == Some(config)
    {
      this.table := table;
      config := FromPreset(table, Devnet, 30, 30);
    }

    /** False stands for the panic on an unknown network. */
    method SetNetwork(name: string) returns (ok: bool)
      modifies this
      ensures ok <==> Apply(table, old(config), Network(name)).Some?
      ensures config == if ok then Apply(table, old(config), Network(name)).value else old(config)
    {
      var httpTimeout, rmbTimeout := config.httpTimeout, config.rmbTimeout;
      var preset := FindPreset(name);
      if preset.None? { return false; }
      config := FromPreset(table, preset.value, 30, 30);
      config := config.(httpTimeout := httpTimeout);
      config := config.(rmbTimeout := rmbTimeout);
      return true;
    }

    method SetUrl(s: Service, url: string)
      modifies this
      ensures Some(config) == Apply(table, old(config), Url(s, url))
    {
      config := config.With(s, config.At(s).(primary := url));
    }

    method SetUrls(s: Service, urls: seq<string>)
      modifies this
      ensures Some(config) == Apply(table, old(config), Urls(s, urls))
    {
      config := config.With(s, config.At(s).(candidates := urls));
      config := config.With(s, config.At(s).(primary := ""));
    }

    method SetHttpTimeout(seconds: nat)
      modifies this
      ensures Some(config) == Apply(table, old(config), HttpTimeout(seconds))
    {
      config := config.(httpTimeout := seconds);
    }

    method SetRmbTimeout(seconds: nat)
      modifies this
      ensures Some(config) == Apply(table, old(config), RmbTimeout(seconds))
    {
      config := config.(rmbTimeout := seconds);
    }

    method Normalized(urls: seq<string>) returns (r: seq<string>)
      ensures r == NormalizeUrls(urls)
    {
      hide NormalizeUrl, NormalizeUrls;
      r := [];
      assert urls[0..] == urls && urls[|urls|..] == [];
      for i := 0 to |urls|
        invariant r + NormalizeUrls(urls[i..]) == NormalizeUrls(urls)
      {
        var url := NormalizeUrl(urls[i]);
        NormalizeStep(urls, i);
        if url != "" { r := r + [url]; }
      }
      NothingNormalized();
    }

    method Finish() returns (c: Config)
      ensures c == Build(config)
    {
      c := config;
      var services := [Substrate, GridProxy, Graphql, Relay];
      for i := 0 to 4
        invariant forall k :: 0 <= k < 4 ==>
                    c.At(services[k]) == if k < i then Built(config.At(services[k])) else config.At(services[k])
        invariant c.network == config.network
        invariant c.httpTimeout == config.httpTimeout && c.rmbTimeout == config.rmbTimeout
      {
        var e := c.At(services[i]);
        var candidates := Normalized(e.candidates);
        c := c.With(services[i], Endpoints(ChoosePrimary(e.primary, candidates), candidates));
      }
      assert services[0] == Substrate && services[1] == GridProxy && services[2] == Graphql && services[3] == Relay;
    }
  }
}
