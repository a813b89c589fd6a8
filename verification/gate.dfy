/**
 * The two request gates of the backend: the CORS origin decision over an
 * allow-list read from the environment, and the CSRF guard that asks
 * state-changing requests for an `X-Requested-With: fetch` header.
 */
module Gate {
  import opened Wrappers
  import opened Strings
  import opened Seqs
  import opened Runtime

  const DefaultOrigin: string := "http://localhost:5173"

  /** `FRONTEND_ORIGINS ?? FRONTEND_ORIGIN ?? default`: a variable set to `""` still counts as set. */
  function AllowSource(origins: Option<string>, origin: Option<string>): (raw: string)
    ensures origins.Some? ==> raw == origins.value
    ensures origins.None? && origin.Some? ==> raw == origin.value
    ensures origins.None? && origin.None? ==> raw == DefaultOrigin
  {
    origins.GetOr(origin.GetOr(DefaultOrigin))
  }

  function TrimEach(parts: seq<string>): (r: seq<string>)
    ensures |r| == |parts|
    ensures forall i :: 0 <= i < |parts| ==> r[i] == Trim(parts[i])
  {
    if |parts| == 0 then [] else [Trim(parts[0])] + TrimEach(parts[1..])
  }

  /** The allow-list: the comma-separated parts, trimmed, empty ones dropped. */
  function AllowList(raw: string): (list: seq<string>)
    ensures |list| <= |Split(raw, ',')|
    ensures forall e :: e in list ==> |e| > 0
  {
    Filter((e: string) => |e| > 0, TrimEach(Split(raw, ',')))
  }

  /** Every entry is a non-empty trimmed part of the variable. */
  lemma AllowListSound(raw: string, e: string)
    requires e in AllowList(raw)
    ensures |e| > 0 && exists part :: part in Split(raw, ',') && e == Trim(part)
  {
    var parts := Split(raw, ',');
    var trimmed := TrimEach(parts);
    var i :| 0 <= i < |trimmed| && trimmed[i] == e;
    assert parts[i] in parts;
  }

  /** Every part of the variable that is non-empty once trimmed is an entry. */
  lemma AllowListComplete(raw: string, part: string)
    requires part in Split(raw, ',') && |Trim(part)| > 0
    ensures Trim(part) in AllowList(raw)
  {
    var parts := Split(raw, ',');
    var trimmed := TrimEach(parts);
    var i :| 0 <= i < |parts| && parts[i] == part;
    var t := Trim(part);
    assert trimmed[i] == t;
    assert t in trimmed;
    var keep := (e: string) => |e| > 0;
    assert keep(t);
    assert AllowList(raw) == Filter(keep, trimmed);
  }

  /** Every entry is already trimmed and holds no comma. */
  lemma AllowListEntries(raw: string, e: string)
    requires e in AllowList(raw)
    ensures Trim(e) == e && ',' !in e
  {
    var parts := Split(raw, ',');
    var trimmed := TrimEach(parts);
    var i :| 0 <= i < |trimmed| && trimmed[i] == e;
    TrimIdempotent(parts[i]);
    TrimContents(parts[i]);
  }

  /** Entries that are trimmed, non-empty and comma-free are read back as written. */
  lemma AllowListOfJoin(entries: seq<string>)
    requires |entries| >= 1
    requires forall i :: 0 <= i < |entries| ==> |entries[i]| > 0 && Trim(entries[i]) == entries[i] && ',' !in entries[i]
    ensures AllowList(Join(entries, ',')) == entries
  {
    SplitJoin(entries, ',');
    var trimmed := TrimEach(entries);
    assert trimmed == entries;
    KeepAll((e: string) => |e| > 0, entries);
  }

  lemma {:induction false} KeepAll<T(!new)>(p: T -> bool, s: seq<T>)
    requires forall i :: 0 <= i < |s| ==> p(s[i])
    ensures Filter(p, s) == s
  {
    if |s| > 0 {
      KeepAll(p, s[1..]);
      assert s == [s[0]] + s[1..];
    }
  }

  /** The `corsOptions` decision for an `Origin` header value (`""` when absent). */
  function OriginAllowed(list: seq<string>, origin: string, p: Platform): bool {
    if origin == "" then true
    else if origin in list then true
    else
      match p.urlHostname(origin)
      case Some(host) => EndsWith(host, ".vercel.app")
      case None => false
  }

  /**
   * An origin that is neither empty nor listed is allowed exactly when its
   * URL parses to a host made of some name followed by `.vercel.app`.
   */
  lemma UnlistedNeedsVercelHost(list: seq<string>, origin: string, p: Platform)
    requires origin != "" && origin !in list
    ensures OriginAllowed(list, origin, p) <==>
      exists name: string :: p.urlHostname(origin) == Some(name + ".vercel.app")
  {
    if OriginAllowed(list, origin, p) {
      var host := p.urlHostname(origin).value;
      var name := host[..|host| - 11];
      assert host == name + ".vercel.app";
    }
  }

  /** The bare `vercel.app` host and a look-alike such as `evilvercel.app` are refused unless listed. */
  lemma VercelLookalikesRefused(list: seq<string>, origin: string, p: Platform)
    requires origin != "" && origin !in list
    requires p.urlHostname(origin) == Some("vercel.app") || p.urlHostname(origin) == Some("evilvercel.app")
    ensures !OriginAllowed(list, origin, p)
  {
    assert "evilvercel.app"[3..][0] == 'l';
  }

  /** Growing the allow-list never refuses an origin it used to allow. */
  lemma AllowedMonotone(list1: seq<string>, list2: seq<string>, origin: string, p: Platform)
    requires forall e :: e in list1 ==> e in list2
    requires OriginAllowed(list1, origin, p)
    ensures OriginAllowed(list2, origin, p)
  {
  }

  /** The `origin` option: the request's origin echoed when allowed, `false` (here `None`) otherwise. */
  function CorsOrigin(list: seq<string>, header: Option<string>, p: Platform): (r: Option<string>)
    ensures r.Some? <==> OriginAllowed(list, header.GetOr(""), p)
    ensures r.Some? ==> r.value == header.GetOr("")
    ensures header.None? ==> r == Some("")
  {
    var origin := header.GetOr("");
    if OriginAllowed(list, origin, p) then Some(origin) else None
  }

  /** The methods the CSRF guard inspects. */
  predicate StateChanging(verb: string) {
    verb in ["POST", "PATCH", "PUT", "DELETE"]
  }

  datatype Verdict = Pass | Reject(status: int)

  /** The CSRF guard: a state-changing request without `X-Requested-With: fetch` gets a 400. */
  function CsrfGuard(verb: string, requestedWith: Option<string>): (v: Verdict)
    ensures v.Reject? ==> v.status == 400
    ensures v.Pass? <==> !StateChanging(verb) || requestedWith == Some("fetch")
  {
    if StateChanging(verb) && requestedWith != Some("fetch") then Reject(400) else Pass
  }

  /** Reads always pass; a state-changing request passes only with the header, whatever else it carries. */
  lemma CsrfCases(requestedWith: Option<string>)
    ensures CsrfGuard("GET", requestedWith) == Pass
    ensures CsrfGuard("OPTIONS", requestedWith) == Pass
    ensures CsrfGuard("POST", requestedWith) == Pass <==> requestedWith == Some("fetch")
    ensures CsrfGuard("DELETE", None) == Reject(400)
    ensures CsrfGuard("PATCH", Some("XMLHttpRequest")) == Reject(400)
  {
  }

  // ---------------------------------------------------------------------
  // The front end against the guard

  /** The state-changing calls the front end makes: sign in, sign out, and the approval toggle. */
  datatype ClientCall = Login | Logout | Approve

  /** The method each call uses. */
  function CallVerb(call: ClientCall): (verb: string)
    ensures StateChanging(verb)
  {
    match call
    case Login => "POST"
    case Logout => "POST"
    case Approve => "PATCH"
  }

  /** The `X-Requested-With` value each call sends: the auth calls send `fetch`, `apiPatch` sends nothing. */
  function SentHeader(call: ClientCall): Option<string> {
    if call == Approve then None else Some("fetch")
  }

  /** The headers with `apiPatch` sending `fetch` like the auth calls. */
  function SentHeaderCorrected(call: ClientCall): (h: Option<string>)
    ensures call != Approve ==> h == SentHeader(call)
  {
    Some("fetch")
  }

  /** As written, the guard lets the auth calls through and answers every approval toggle with 400. */
  lemma ClientCallsAsWritten(call: ClientCall)
    ensures CsrfGuard(CallVerb(call), SentHeader(call)).Pass? <==> call != Approve
    ensures call == Approve ==> CsrfGuard(CallVerb(call), SentHeader(call)) == Reject(400)
  {
  }

  /** With the header on `apiPatch`, every state-changing call the front end makes passes the guard. */
  lemma ClientCallsCorrected(call: ClientCall)
    ensures CsrfGuard(CallVerb(call), SentHeaderCorrected(call)) == Pass
  {
  }
}
