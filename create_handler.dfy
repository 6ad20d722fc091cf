/**
 * The creation handler `onRequest` of `POST /create`: an ordered chain of
 * request checks, then a look-up of the slug and of the url in the `links`
 * table, then at most one insert. The table is the field `rows` of a
 * `LinkStore`; the platform's answers (the URL parser, the random source, the
 * clock and store failures) come in as a `Platform` value.
 */
module CreateHandler {
  import opened Wrappers
  import opened Text
  import opened Validation
  import opened SlugGen
  import opened Expiry

  /** The parsed JSON body. A field that is absent or null is `None`; every other field is a string. */
  datatype Body = Body(url: Option<string>, slug: Option<string>, expiry: Option<string>, password: Option<string>)

  /**
   * The incoming request: its method; its body, `None` when it is missing, is
   * not JSON or is a falsy JSON value; the protocol (with its colon, `https:`)
   * and hostname of the request URL; and the headers the handler reads.
   */
  datatype Request = Request(
    verb: string,
    body: Option<Body>,
    protocol: string,
    hostname: string,
    connectingIp: Option<string>,
    forwardedFor: Option<string>,
    clientIp: Option<string>,
    userAgent: Option<string>)

  /** The store query that a failure hits: the slug look-up, the url look-up or the insert. */
  datatype Stage = SlugQuery | UrlQuery | InsertQuery

  /** A failure the store raises at `stage`: an `Error` with its `name` and its `message`. */
  datatype Fault = Fault(stage: Stage, name: string, message: string)

  /**
   * What the platform answers during one request: the hostname `new URL(url)`
   * gives (`None` when it throws), the random picks for `gen`, `Date.now()`,
   * the `toISOString()` of the creation instant, and a store failure, if any.
   */
  datatype Platform = Platform(
    targetHost: Option<string>,
    picks: seq<Pick>,
    nowMs: int,
    createTime: string,
    fault: Option<Fault>)

  /** One row of the `links` table. */
  datatype Link = Link(
    url: string,
    slug: string,
    ip: string,
    status: int,
    ua: string,
    createTime: string,
    expiresAt: Expiration,
    password: Option<string>)

  /** Why a request was refused; each stands for one of the handler's fixed messages. */
  datatype Reason =
    | WrongMethod
    | MissingBody
    | WrongPassword
    | BadUrl
    | BadSlug
    | SameDomain
    | SlugExists
    | ServerError(message: string)

  /** The response: the empty preflight answer, a `{slug, link}` JSON answer, or a JSON error. */
  datatype Reply = Preflight | Shortened(slug: string, link: string) | Refused(status: int, reason: Reason)

  /** The HTTP status of a reply; the preflight and `{slug, link}` answers have the default 200. */
  function Status(r: Reply): int {
    if r.Refused? then r.status else 200
  }

  /** The message of the store's uniqueness violation on `links.slug`. */
  const UniqueViolation: string := "UNIQUE constraint failed: links.slug"

  /** The handler's fallback text for an error that stringifies to nothing ("server error"). */
  const DefaultErrorText: string := "\U{670D}\U{52A1}\U{5668}\U{9519}\U{8BEF}"

  /**
   * `String(e?.message || e)` for a thrown `Error`: its message, or, when that is
   * empty, `String(e)`, which for an `Error` with an empty message is its name.
   */
  function ErrorText(f: Fault): string {
    if f.message != "" then f.message else f.name
  }

  /** The `catch` block on the error's text: a text mentioning `UNIQUE` is a slug conflict, anything else a server error. */
  function StoreErrorReply(msg: string): Reply {
    if Contains(msg, "UNIQUE") then Refused(409, SlugExists)
    else Refused(500, ServerError(if msg == "" then DefaultErrorText else msg))
  }

  /** A store error is a 409 exactly when `UNIQUE` occurs in its message, and a 500 otherwise. */
  lemma StoreErrorStatus(msg: string)
    ensures Status(StoreErrorReply(msg)) == 409 <==> exists i :: OccursAt(msg, "UNIQUE", i)
    ensures Status(StoreErrorReply(msg)) != 409 ==> Status(StoreErrorReply(msg)) == 500
  {
    ContainsOccurrence(msg, "UNIQUE");
  }

  /**
   * A server error carries the error's text, and the fallback text only when that
   * text is empty: an `Error` with an empty message reports its name instead.
   */
  lemma ServerErrorText(f: Fault)
    requires !Contains(ErrorText(f), "UNIQUE")
    ensures StoreErrorReply(ErrorText(f)).Refused? && StoreErrorReply(ErrorText(f)).status == 500
    ensures f.message != "" ==> StoreErrorReply(ErrorText(f)).reason == ServerError(f.message)
    ensures f.message == "" && f.name != "" ==> StoreErrorReply(ErrorText(f)).reason == ServerError(f.name)
    ensures f.message == "" && f.name == "" ==> StoreErrorReply(ErrorText(f)).reason == ServerError(DefaultErrorText)
  {
  }

  /** The insert's uniqueness violation is answered as a slug conflict. */
  lemma UniqueViolationIsConflict()
    ensures StoreErrorReply(UniqueViolation) == Refused(409, SlugExists)
  {
    assert UniqueViolation[..6] == "UNIQUE";
  }

  /** `a || b || c || ''` over header values: the first present, non-empty one, else the empty string. */
  function FirstPresent(hs: seq<Option<string>>): (r: string)
    ensures r == "" <==> forall i :: 0 <= i < |hs| ==> !Truthy(hs[i])
    ensures r != "" ==> exists i :: 0 <= i < |hs| && hs[i] == Some(r) && forall j :: 0 <= j < i ==> !Truthy(hs[j])
  {
    if hs == [] then ""
    else if Truthy(hs[0]) then hs[0].value
    else
      var r := FirstPresent(hs[1..]);
      assert r != "" ==> exists i :: 0 < i < |hs| && hs[i] == Some(r) && forall j :: 0 <= j < i ==> !Truthy(hs[j]) by {
        if r != "" {
          var i :| 0 <= i < |hs[1..]| && hs[1..][i] == Some(r) && forall j :: 0 <= j < i ==> !Truthy(hs[1..][j]);
          assert hs[i + 1] == Some(r);
          assert forall j :: 0 <= j < i + 1 ==> !Truthy(hs[j]) by {
            forall j | 0 < j < i + 1 ensures !Truthy(hs[j]) {
              assert hs[j] == hs[1..][j - 1];
            }
          }
        }
      }
      r
  }

  /** The client IP recorded with a new row: `CF-Connecting-IP`, then `x-forwarded-for`, then `clientIP`. */
  function ClientIp(req: Request): (ip: string)
    ensures Truthy(req.connectingIp) ==> ip == req.connectingIp.value
    ensures !Truthy(req.connectingIp) && Truthy(req.forwardedFor) ==> ip == req.forwardedFor.value
    ensures !Truthy(req.connectingIp) && !Truthy(req.forwardedFor) && Truthy(req.clientIp) ==> ip == req.clientIp.value
    ensures !Truthy(req.connectingIp) && !Truthy(req.forwardedFor) && !Truthy(req.clientIp) ==> ip == ""
  {
    var hs := [req.connectingIp, req.forwardedFor, req.clientIp];
    var ip := FirstPresent(hs);
    assert Truthy(hs[2]) ==> ip != "";
    assert (Truthy(hs[0]) ==> ip == hs[0].value)
        && (!Truthy(hs[0]) && Truthy(hs[1]) ==> ip == hs[1].value)
        && (!Truthy(hs[0]) && !Truthy(hs[1]) && Truthy(hs[2]) ==> ip == hs[2].value) by {
      if ip != "" {
        var i :| 0 <= i < 3 && hs[i] == Some(ip) && forall j :: 0 <= j < i ==> !Truthy(hs[j]);
        assert Truthy(hs[i]);
      }
    }
    ip
  }

  /** The `user-agent` header, or the empty string when it is absent or empty. */
  function UserAgent(req: Request): (ua: string)
    ensures Truthy(req.userAgent) ==> ua == req.userAgent.value
    ensures !Truthy(req.userAgent) ==> ua == ""
  {
    FirstPresent([req.userAgent])
  }

  /** `${protocol}//${hostname}` of the request URL. */
  function Origin(req: Request): string {
    req.protocol + "//" + req.hostname
  }

  /** The short link answered for `slug`. */
  function ShortLink(req: Request, slug: string): string {
    Origin(req) + "/" + slug
  }

  /** The column a look-up filters on. */
  datatype Column = BySlug | ByUrl

  function Field(l: Link, c: Column): string {
    match c
    case BySlug => l.slug
    case ByUrl => l.url
  }

  /** The position of the first row whose column `c` equals `v`. */
  function FirstMatch(rows: seq<Link>, c: Column, v: string): (r: Option<nat>)
    ensures r.Some? ==> r.value < |rows| && Field(rows[r.value], c) == v
    ensures r.Some? ==> forall j :: 0 <= j < r.value ==> Field(rows[j], c) != v
    ensures r.None? ==> forall j :: 0 <= j < |rows| ==> Field(rows[j], c) != v
  {
    if rows == [] then None
    else if Field(rows[0], c) == v then Some(0)
    else match FirstMatch(rows[1..], c, v)
      case None => None
      case Some(k) => Some(k + 1)
  }

  /** `SELECT ... FROM links WHERE c = v` and `.first()`: the earliest matching row, or none. */
  function Lookup(rows: seq<Link>, c: Column, v: string): (r: Option<Link>)
    ensures r.Some? ==> r.value in rows && Field(r.value, c) == v
    ensures r.None? <==> forall l :: l in rows ==> Field(l, c) != v
  {
    match FirstMatch(rows, c, v)
    case None => None
    case Some(i) => Some(rows[i])
  }

  /** Appending a row changes a look-up only when nothing matched before and the new row matches. */
  lemma {:induction false} LookupAppend(rows: seq<Link>, l: Link, c: Column, v: string)
    ensures Lookup(rows + [l], c, v)
      == if Lookup(rows, c, v).Some? then Lookup(rows, c, v)
         else if Field(l, c) == v then Some(l) else None
  {
    var all := rows + [l];
    var before := FirstMatch(rows, c, v);
    var after := FirstMatch(all, c, v);
    if before.Some? {
      assert all[before.value] == rows[before.value];
      assert after.Some? && after.value <= before.value;
      assert forall j :: 0 <= j < before.value ==> all[j] == rows[j];
    } else {
      assert forall j :: 0 <= j < |rows| ==> all[j] == rows[j];
      assert all[|rows|] == l;
      if Field(l, c) == v {
        assert after.Some? && after.value == |rows|;
      }
    }
  }

  /** The `UNIQUE` constraint on `slug`. */
  ghost predicate SlugsUnique(rows: seq<Link>) {
    forall i, j :: 0 <= i < j < |rows| ==> rows[i].slug != rows[j].slug
  }

  /** With unique slugs, the row a slug look-up finds is the only row with that slug. */
  lemma LookupBySlugIsUnique(rows: seq<Link>, s: string, l: Link)
    requires SlugsUnique(rows)
    requires Lookup(rows, BySlug, s) == Some(l)
    ensures forall k :: 0 <= k < |rows| && rows[k].slug == s ==> rows[k] == l
  {
  }

  // The checks of the chain, each assuming the ones before it passed.

  /** The method gate passed and a body was read. */
  predicate HasBody(req: Request) { req.verb == "POST" && req.body.Some? }

  /** The creation password gate passed. */
  predicate Authorized(req: Request, accessPassword: Option<string>) {
    HasBody(req) && PasswordAccepted(accessPassword, req.body.value.password)
  }

  /** `url` is present and matches the URL pattern. */
  predicate UrlAccepted(url: Option<string>) { Truthy(url) && ValidUrl(url.value) }

  /** The format checks on `url` and `slug` passed. */
  predicate WellFormed(req: Request, accessPassword: Option<string>) {
    Authorized(req, accessPassword) && UrlAccepted(req.body.value.url) && !SlugRejected(req.body.value.slug)
  }

  /** Every check passed, the self-domain check included: the table is consulted. */
  predicate Admitted(req: Request, accessPassword: Option<string>, targetHost: Option<string>) {
    WellFormed(req, accessPassword) && targetHost.Some? && targetHost.value != req.hostname
  }

  predicate FaultsAt(world: Platform, st: Stage) { world.fault.Some? && world.fault.value.stage == st }

  /** The url look-up runs: no slug was given, or the given slug was looked up and is free. */
  predicate ReachesUrlQuery(rows: seq<Link>, b: Body, world: Platform) {
    !Truthy(b.slug) || (!FaultsAt(world, SlugQuery) && Lookup(rows, BySlug, b.slug.value).None?)
  }

  /** The insert runs: the url look-up succeeded and did not end in reuse. */
  predicate ReachesInsert(rows: seq<Link>, b: Body, world: Platform)
    requires Truthy(b.url)
  {
    ReachesUrlQuery(rows, b, world) && !FaultsAt(world, UrlQuery)
    && (Truthy(b.slug) || Lookup(rows, ByUrl, b.url.value).None?)
  }

  /** `slug || gen(4)` */
  function NewSlug(b: Body, world: Platform): (s: string)
    requires |world.picks| >= 4
    ensures Truthy(b.slug) ==> s == b.slug.value
    ensures !Truthy(b.slug) ==> |s| == 4 && ValidSlug(s)
  {
    if Truthy(b.slug) then b.slug.value
    else
      GeneratedSlugIsValid(world.picks[..4]);
      Spelled(world.picks[..4])
  }

  /** `password || null` */
  function StoredPassword(p: Option<string>): Option<string> {
    if Truthy(p) then p else None
  }

  /** The row the insert writes under `slug`: always active (status 1). */
  function NewRow(req: Request, b: Body, world: Platform, slug: string): Link
    requires Truthy(b.url)
  {
    Link(b.url.value, slug, ClientIp(req), 1, UserAgent(req), world.createTime,
         ParseExpiry(b.expiry, world.nowMs), StoredPassword(b.password))
  }

  /** The `links` table, as the handler sees it. */
  class LinkStore {
    var rows: seq<Link>

    ghost predicate Valid()
      reads this
    {
      SlugsUnique(rows)
    }

    constructor ()
      ensures Valid() && rows == []
    {
      rows := [];
    }

    /** `onRequest` for `/create`, with the deployment's `ACCESS_PASSWORD`. */
    method Create(req: Request, accessPassword: Option<string>, world: Platform) returns (reply: Reply)
      requires Valid()
      requires |world.picks| >= 4
      modifies this
      ensures Valid()
      // The request checks, in order; a refused request leaves the table alone.
      ensures req.verb == "OPTIONS" ==> reply == Preflight
      ensures req.verb != "OPTIONS" && req.verb != "POST" ==> reply == Refused(405, WrongMethod)
      ensures req.verb == "POST" && req.body.None? ==> reply == Refused(400, MissingBody)
      ensures HasBody(req) && !PasswordAccepted(accessPassword, req.body.value.password)
        ==> reply == Refused(403, WrongPassword)
      ensures Authorized(req, accessPassword) && !UrlAccepted(req.body.value.url)
        ==> reply == Refused(400, BadUrl)
      ensures Authorized(req, accessPassword) && UrlAccepted(req.body.value.url) && SlugRejected(req.body.value.slug)
        ==> reply == Refused(400, BadSlug)
      ensures WellFormed(req, accessPassword) && world.targetHost.None? ==> reply == Refused(400, BadUrl)
      ensures WellFormed(req, accessPassword) && world.targetHost == Some(req.hostname)
        ==> reply == Refused(400, SameDomain)
      ensures !Admitted(req, accessPassword, world.targetHost) ==> rows == old(rows)
      // A given slug that is already taken: the same url is answered again, another url is a conflict.
      ensures Admitted(req, accessPassword, world.targetHost) && Truthy(req.body.value.slug)
        && FaultsAt(world, SlugQuery)
        ==> reply == StoreErrorReply(ErrorText(world.fault.value)) && rows == old(rows)
      ensures Admitted(req, accessPassword, world.targetHost) && Truthy(req.body.value.slug)
        && !FaultsAt(world, SlugQuery) && Lookup(old(rows), BySlug, req.body.value.slug.value).Some?
        ==> rows == old(rows)
            && var s := req.body.value.slug.value;
               if Lookup(old(rows), BySlug, s).value.url == req.body.value.url.value
               then reply == Shortened(s, ShortLink(req, s))
               else reply == Refused(409, SlugExists)
      // No slug given and the url already stored: the stored slug is reused.
      ensures Admitted(req, accessPassword, world.targetHost)
        && ReachesUrlQuery(old(rows), req.body.value, world) && FaultsAt(world, UrlQuery)
        ==> reply == StoreErrorReply(ErrorText(world.fault.value)) && rows == old(rows)
      ensures Admitted(req, accessPassword, world.targetHost) && !Truthy(req.body.value.slug)
        && !FaultsAt(world, UrlQuery) && Lookup(old(rows), ByUrl, req.body.value.url.value).Some?
        ==> rows == old(rows)
            && var s := Lookup(old(rows), ByUrl, req.body.value.url.value).value.slug;
               reply == Shortened(s, ShortLink(req, s))
      // Otherwise one insert: it fails on a store error or a taken slug, else adds exactly one row.
      ensures Admitted(req, accessPassword, world.targetHost)
        && ReachesInsert(old(rows), req.body.value, world)
        ==> var s := NewSlug(req.body.value, world);
            if FaultsAt(world, InsertQuery) then
              reply == StoreErrorReply(ErrorText(world.fault.value)) && rows == old(rows)
            else if Lookup(old(rows), BySlug, s).Some? then
              reply == Refused(409, SlugExists) && rows == old(rows)
            else
              reply == Shortened(s, ShortLink(req, s))
              && rows == old(rows) + [NewRow(req, req.body.value, world, s)]
      // Summary: the table only ever grows by one active row.
      ensures rows == old(rows) || (|rows| == |old(rows)| + 1 && rows[..|old(rows)|] == old(rows))
      ensures |rows| > |old(rows)| ==> reply.Shortened? && rows[|rows| - 1].slug == reply.slug
      ensures |rows| > |old(rows)| ==>
        req.body.Some? && Truthy(req.body.value.url)
        && var l := rows[|rows| - 1];
           l.url == req.body.value.url.value && l.status == 1
           && l.ip == ClientIp(req) && l.ua == UserAgent(req) && l.createTime == world.createTime
           && l.expiresAt == ParseExpiry(req.body.value.expiry, world.nowMs)
           && l.password == StoredPassword(req.body.value.password)
      // A request without a slug only inserts a url that no row held yet.
      ensures |rows| > |old(rows)| && !Truthy(req.body.value.slug)
        ==> forall k :: 0 <= k < |old(rows)| ==> old(rows)[k].url != req.body.value.url.value
      ensures |rows| > |old(rows)| && GateConfigured(accessPassword)
        ==> rows[|rows| - 1].password == accessPassword
    {
      if req.verb == "OPTIONS" {
        return Preflight;
      }
      if req.verb != "POST" {
        return Refused(405, WrongMethod);
      }
      if req.body.None? {
        return Refused(400, MissingBody);
      }
      var body := req.body.value;
      if GateConfigured(accessPassword) {
        if !Truthy(body.password) || body.password.value != accessPassword.value {
          return Refused(403, WrongPassword);
        }
      }
      if !Truthy(body.url) || !ValidUrl(body.url.value) {
        return Refused(400, BadUrl);
      }
      if Truthy(body.slug) && (Utf16Length(body.slug.value) < 2 || Utf16Length(body.slug.value) > 10
                               || EndsWithExtension(body.slug.value)) {
        return Refused(400, BadSlug);
      }
      if world.targetHost.None? {
        return Refused(400, BadUrl);
      }
      if world.targetHost.value == req.hostname {
        return Refused(400, SameDomain);
      }
      var url := body.url.value;
      if Truthy(body.slug) {
        var slug := body.slug.value;
        if FaultsAt(world, SlugQuery) {
          return StoreErrorReply(ErrorText(world.fault.value));
        }
        var row := Lookup(rows, BySlug, slug);
        if row.Some? && row.value.url == url {
          return Shortened(slug, ShortLink(req, slug));
        }
        if row.Some? {
          return Refused(409, SlugExists);
        }
      }
      if FaultsAt(world, UrlQuery) {
        return StoreErrorReply(ErrorText(world.fault.value));
      }
      var dup := Lookup(rows, ByUrl, url);
      if dup.Some? && !Truthy(body.slug) {
        return Shortened(dup.value.slug, ShortLink(req, dup.value.slug));
      }
      var slug2: string;
      if Truthy(body.slug) {
        slug2 := body.slug.value;
      } else {
        slug2 := Gen(4, world.picks);
        GenSpells(4, world.picks, slug2);
      }
      var link := NewRow(req, body, world, slug2);
      if FaultsAt(world, InsertQuery) {
        return StoreErrorReply(ErrorText(world.fault.value));
      }
      if Lookup(rows, BySlug, slug2).Some? {
        UniqueViolationIsConflict();
        return StoreErrorReply(UniqueViolation);
      }
      rows := rows + [link];
      reply := Shortened(slug2, ShortLink(req, slug2));
    }

    /**
     * Sending the same creation request again, with fresh random picks and a
     * clean store: a `{slug, link}` answer is repeated exactly, a refusal by the
     * request checks is repeated too, and the two requests together add at most
     * one row.
     */
    method CreateTwice(req: Request, accessPassword: Option<string>, w1: Platform, w2: Platform)
      returns (first: Reply, second: Reply)
      requires Valid()
      requires |w1.picks| >= 4 && |w2.picks| >= 4
      requires w2.targetHost == w1.targetHost && w2.fault.None?
      modifies this
      ensures Valid()
      ensures first.Shortened? ==> second == first
      ensures !Admitted(req, accessPassword, w1.targetHost) ==> second == first
      ensures rows == old(rows) || (|rows| == |old(rows)| + 1 && rows[..|old(rows)|] == old(rows))
    {
      first := Create(req, accessPassword, w1);
      ghost var before := old(rows);
      ghost var mid := rows;
      if |mid| > |before| {
        var l := mid[|mid| - 1];
        assert mid == before + [l];
        LookupAppend(before, l, BySlug, l.slug);
        LookupAppend(before, l, ByUrl, l.url);
      }
      second := Create(req, accessPassword, w2);
    }
  }
}
