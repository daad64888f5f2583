/** Requests that show why the assumptions of the staleness result are needed. */
module Scenarios {
  import opened Wrappers
  import opened Freshness
  import opened CacheKey
  import opened Proxy
  import opened Handler
  import Http

  /** After one GET has filled the empty cache, a GET with the same key is answered with what was read then, as long
      as that is fresh, whatever the origin would answer now. */
  lemma StoredAnswerIsReplayed(lib: Lib, first: Uri, second: Uri, a: Answer, built: int, s: Script)
    requires MakeKey(first) == MakeKey(second) && MayStore(Get(first), a.response) && s.sends
    requires Build(lib, a.response, Read(a.body, a.read), built).Ok?
    requires IsValid(Copied(Build(lib, a.response, Read(a.body, a.read), built).value), s.checkedAt)
    ensures var r := Handle(lib, map[], Http.EMPTY, Get(first), Script(built, None, Some(a), built, {}, true));
            Handle(lib, r.view, Http.EMPTY, Get(second), s).sent == Some(Read(a.body, a.read))
  {
    var e := Build(lib, a.response, Read(a.body, a.read), built).value;
    var r := Handle(lib, map[], Http.EMPTY, Get(first), Script(built, None, Some(a), built, {}, true));
    assert r.view[MakeKey(second)] == Copied(e);
  }

  /** Whatever is stored, its body is complete exactly when the origin's body was read to its end: a transfer that is
      cut short fails no call that the handler would notice. */
  lemma StoredBodyIsCompleteIff(lib: Lib, view: map<string, Entry>, client: Http.Response, req: Request, s: Script)
    requires Stores(lib, view, req, s)
    ensures var r := Handle(lib, view, client, req, s);
            && MakeKey(req.uri) in r.view
            && (r.view[MakeKey(req.uri)].body == s.fetch.value.body <==> s.fetch.value.read >= |s.fetch.value.body|)
  {
    var r, a := Handle(lib, view, client, req, s), s.fetch.value;
    OneChangeAtMost(lib, view, client, req, s);
    assert r.view[MakeKey(req.uri)].body == Read(a.body, a.read);
    assert a.read < |a.body| ==> |Read(a.body, a.read)| == a.read;
  }

  /** A body whose transfer was cut is stored and replayed as if it were complete. */
  lemma TruncatedBodyIsReplayed(lib: Lib, uri: Uri, a: Answer, built: int, s: Script)
    requires a.read < |a.body| && MayStore(Get(uri), a.response) && s.sends
    requires Build(lib, a.response, a.body[..a.read], built).Ok?
    requires IsValid(Copied(Build(lib, a.response, a.body[..a.read], built).value), s.checkedAt)
    ensures var r := Handle(lib, map[], Http.EMPTY, Get(uri), Script(built, None, Some(a), built, {}, true));
            var sent := Handle(lib, r.view, Http.EMPTY, Get(uri), s).sent;
            sent.Some? && sent.value != a.body && sent.value == a.body[..a.read]
  {
    StoredAnswerIsReplayed(lib, uri, uri, a, built, s);
  }

  /** Clients of one server can be given another server's answer. */
  lemma AnotherServerAnswers(lib: Lib, a: Answer, built: int, s: Script)
    requires var uri := Uri("10.0.0.1", 8080, "/"); MayStore(Get(uri), a.response) && s.sends
    requires Build(lib, a.response, Read(a.body, a.read), built).Ok?
    requires IsValid(Copied(Build(lib, a.response, Read(a.body, a.read), built).value), s.checkedAt)
    ensures var asked, other := Uri("10.0.0.180", 80, "/"), Uri("10.0.0.1", 8080, "/");
            && TargetOf(asked) != TargetOf(other)
            && var r := Handle(lib, map[], Http.EMPTY, Get(other), Script(built, None, Some(a), built, {}, true));
               Handle(lib, r.view, Http.EMPTY, Get(asked), s).sent == Some(Read(a.body, a.read))
  {
    AddressesCollide();
    StoredAnswerIsReplayed(lib, Uri("10.0.0.1", 8080, "/"), Uri("10.0.0.180", 80, "/"), a, built, s);
  }
}
