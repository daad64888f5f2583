/** The Cache-Control parser: the stringstream loop, the grammar it implements, and a printer it inverts. */
module CacheControl {
  import opened Wrappers
  import Http

  const CACHE_CONTROL := "cache-control"

  // ---- The grammar ----

  /** The first position of `c` in `s`, or |s|. */
  function Find(s: string, c: char): (i: nat)
    ensures i <= |s|
    ensures i < |s| ==> s[i] == c
    ensures forall k :: 0 <= k < i ==> s[k] != c
  {
    if s == "" || s[0] == c then 0 else 1 + Find(s[1..], c)
  }

  /** The pieces of `s` between commas; there is always at least one. */
  function Split(s: string): (pieces: seq<string>)
    ensures |pieces| > 0
    decreases |s|
  {
    var i := Find(s, ',');
    if i == |s| then [s] else [s[..i]] + Split(s[i + 1..])
  }

  function Join(pieces: seq<string>): string
    requires |pieces| > 0
  {
    if |pieces| == 1 then pieces[0] else pieces[0] + "," + Join(pieces[1..])
  }

  function Strip(s: string): string {
    if s != "" && s[0] == ' ' then Strip(s[1..]) else s
  }

  function NameOf(piece: string): string {
    var d := Strip(piece);
    d[..Find(d, '=')]
  }

  function ValueOf(piece: string): string {
    var d := Strip(piece);
    var i := Find(d, '=');
    if i == |d| then "" else d[i + 1..]
  }

  function Collect(pieces: seq<string>, found: map<string, string>): map<string, string> {
    if pieces == [] then found
    else Collect(pieces[1..], found[NameOf(pieces[0]) := ValueOf(pieces[0])])
  }

  function Parse(text: string): map<string, string> {
    if text == "" then map[] else Collect(Split(text), map[])
  }

  /** Only the first Cache-Control line of a response is read. */
  function Directives(hs: seq<Http.Header>): map<string, string> {
    match Http.First(hs, CACHE_CONTROL)
    case None => map[]
    case Some(text) => Parse(text)
  }

  /** isCacheableResp. */
  predicate Storable(hs: seq<Http.Header>) {
    "no-store" !in Directives(hs) && "private" !in Directives(hs)
  }

  // ---- The stream and the loop ----

  /** A std::stringstream being read: it stays good until a read meets the end of the data. */
  class StringStream {
    const data: string
    var pos: nat
    var eof: bool
    var failed: bool

    predicate Valid()
      reads this
    {
      pos <= |data|
    }

    predicate Good()
      reads this
    {
      !eof && !failed
    }

    constructor (data: string)
      ensures Valid() && Good() && this.data == data && pos == 0
    {
      this.data, pos, eof, failed := data, 0, false, false;
    }

    method Peek() returns (c: Option<char>)
      requires Valid()
      modifies this`eof, this`failed
      ensures old(Good()) && pos < |data| ==> c == Some(data[pos]) && Good()
      ensures old(Good()) && pos == |data| ==> c == None && eof && !failed
      ensures !old(Good()) ==> c == None && failed && eof == old(eof)
    {
      if !Good() {
        failed, c := true, None;
      } else if pos == |data| {
        eof, c := true, None;
      } else {
        c := Some(data[pos]);
      }
    }

    method Get() returns (c: Option<char>)
      requires Valid()
      modifies this
      ensures Valid()
      ensures old(Good()) && old(pos) < |data| ==> c == Some(data[old(pos)]) && pos == old(pos) + 1 && Good()
      ensures !(old(Good()) && old(pos) < |data|) ==> c == None && pos == old(pos) && failed
    {
      c := Peek();
      if c.None? {
        failed := true;
      } else {
        pos := pos + 1;
      }
    }

    /** std::getline: the delimiter is consumed but not returned; reading nothing at all is a failure. */
    method GetLine(delimiter: char) returns (line: string)
      requires Valid()
      modifies this
      ensures Valid()
      ensures !old(Good()) ==> line == "" && pos == old(pos) && !Good()
      ensures old(Good()) ==> line == data[old(pos)..][..Find(data[old(pos)..], delimiter)]
      ensures old(Good()) && Find(data[old(pos)..], delimiter) < |data| - old(pos) ==>
                pos == old(pos) + |line| + 1 && Good()
      ensures old(Good()) && Find(data[old(pos)..], delimiter) == |data| - old(pos) ==> pos == |data| && !Good()
    {
      line := "";
      if !Good() {
        failed := true;
        return;
      }
      ghost var rest := data[pos..];
      while pos < |data| && data[pos] != delimiter
        invariant Valid() && Good()
        invariant old(pos) <= pos
        invariant line == rest[..pos - old(pos)]
        invariant forall k :: 0 <= k < pos - old(pos) ==> rest[k] != delimiter
        decreases |data| - pos
      {
        assert rest[..pos + 1 - old(pos)] == rest[..pos - old(pos)] + [data[pos]];
        line := line + [data[pos]];
        pos := pos + 1;
      }
      assert Find(rest, delimiter) == |line|;
      if pos < |data| {
        pos := pos + 1;
      } else {
        eof := true;
        failed := line == "";
      }
    }
  }

  /** The pieces still to be read: none once the stream has gone bad. */
  ghost function Remaining(ss: StringStream): seq<string>
    requires ss.Valid()
    reads ss
  {
    if ss.Good() then Split(ss.data[ss.pos..]) else []
  }

  /** The inner loop; it leaves the stream at its end-of-data when nothing but spaces was left. */
  method SkipSpaces(ss: StringStream)
    requires ss.Valid() && ss.Good()
    modifies ss
    ensures ss.Valid() && old(ss.pos) <= ss.pos
    ensures ss.Good() == (ss.pos < |ss.data|) && (ss.Good() ==> ss.data[ss.pos] != ' ')
    ensures SameDirectives(Split(ss.data[ss.pos..]), old(Remaining(ss)))
  {
    var next := ss.Peek();
    while next == Some(' ')
      invariant ss.Valid() && !ss.failed && ss.eof == next.None?
      invariant next == if ss.pos < |ss.data| then Some(ss.data[ss.pos]) else None
      invariant SameDirectives(Split(ss.data[ss.pos..]), old(Remaining(ss)))
      invariant old(ss.pos) <= ss.pos
      decreases |ss.data| - ss.pos
    {
      SpaceIsSkipped(ss.data[ss.pos..]);
      assert ss.data[ss.pos..][1..] == ss.data[ss.pos + 1..];
      var _ := ss.Get();
      next := ss.Peek();
    }
  }

  /** One round of reading: skip spaces, then read up to a comma. */
  method NextDirective(ss: StringStream) returns (substr: string)
    requires ss.Valid() && ss.Good()
    modifies ss
    ensures ss.Valid()
    ensures substr == Strip(old(Remaining(ss))[0])
    ensures Remaining(ss) == old(Remaining(ss))[1..]
    ensures ss.pos >= old(ss.pos) && (ss.Good() ==> ss.pos > old(ss.pos))
  {
    SkipSpaces(ss);
    ghost var rest := ss.data[ss.pos..];
    substr := ss.GetLine(',');
    assert ss.Good() ==> rest[|substr| + 1..] == ss.data[ss.pos..];
  }

  method GetCacheControlHeaders(hs: seq<Http.Header>) returns (ret: map<string, string>)
    ensures ret == Directives(hs)
  {
    ret := map[];
    var header := Http.First(hs, CACHE_CONTROL);
    if header.None? || header.value == "" {
      return;
    }
    var ss := new StringStream(header.value);
    assert ss.data[ss.pos..] == header.value;
    while ss.Good()
      invariant ss.Valid() && Collect(Remaining(ss), ret) == Parse(header.value)
      decreases |ss.data| - ss.pos + if ss.Good() then 1 else 0
    {
      var substr := NextDirective(ss);
      var current := Find(substr, '=');
      if current < |substr| {
        ret := ret[substr[..current] := substr[current + 1..]];
      } else {
        assert substr[..current] == substr;
        ret := ret[substr := ""];
      }
    }
  }

  method IsCacheableResp(hs: seq<Http.Header>) returns (cacheable: bool)
    ensures cacheable == !(Says(hs, "no-store") || Says(hs, "private"))
  {
    SaysIff(hs, "no-store");
    SaysIff(hs, "private");
    var cacheHeaders := GetCacheControlHeaders(hs);
    if "no-store" in cacheHeaders {
      return false;
    } else if "private" in cacheHeaders {
      return false;
    }
    return true;
  }

  /** Equal up to spaces in front of the first piece. */
  ghost predicate SameDirectives(pieces: seq<string>, others: seq<string>)
    requires |pieces| > 0 && |others| > 0
  {
    Strip(pieces[0]) == Strip(others[0]) && pieces[1..] == others[1..]
  }

  lemma SpaceIsSkipped(s: string)
    requires s != "" && s[0] == ' '
    ensures SameDirectives(Split(s), Split(s[1..]))
  {
    var i := Find(s[1..], ',');
    assert s[..i + 1] == [s[0]] + s[1..][..i];
    assert Find(s, ',') == i + 1;
    if i < |s[1..]| {
      assert s[i + 2..] == s[1..][i + 1..];
    }
    assert Split(s)[0][1..] == Split(s[1..])[0];
  }

  // ---- Splitting is the inverse of joining ----

  lemma FindIn(s: string, c: char, i: nat)
    requires i <= |s| && c !in s[..i] && (i < |s| ==> s[i] == c)
    ensures Find(s, c) == i
  {
    forall k | 0 <= k < i ensures s[k] != c {
      assert s[k] == s[..i][k];
    }
  }

  lemma {:induction false} SplitCuts(s: string)
    ensures Join(Split(s)) == s
    ensures forall i :: 0 <= i < |Split(s)| ==> ',' !in Split(s)[i]
    decreases |s|
  {
    var i := Find(s, ',');
    if i < |s| {
      SplitCuts(s[i + 1..]);
      assert s == s[..i] + "," + s[i + 1..];
    }
  }

  lemma {:induction false} SplitJoin(pieces: seq<string>)
    requires |pieces| > 0 && forall i :: 0 <= i < |pieces| ==> ',' !in pieces[i]
    ensures Split(Join(pieces)) == pieces
  {
    if |pieces| == 1 {
      FindIn(pieces[0], ',', |pieces[0]|);
    } else {
      SplitJoin(pieces[1..]);
      var s := Join(pieces);
      assert s[..|pieces[0]|] == pieces[0];
      FindIn(s, ',', |pieces[0]|);
      assert s[|pieces[0]| + 1..] == Join(pieces[1..]);
    }
  }

  lemma {:induction false} CollectAppend(pieces: seq<string>, last: string, found: map<string, string>)
    ensures Collect(pieces + [last], found) == Collect(pieces, found)[NameOf(last) := ValueOf(last)]
  {
    if pieces != [] {
      CollectAppend(pieces[1..], last, found[NameOf(pieces[0]) := ValueOf(pieces[0])]);
      assert (pieces + [last])[1..] == pieces[1..] + [last];
    }
  }

  /** Some piece, without its leading spaces and cut at '=', is `name`. */
  ghost predicate Names(pieces: seq<string>, name: string) {
    exists i :: 0 <= i < |pieces| && NameOf(pieces[i]) == name
  }

  lemma NamesFirst(pieces: seq<string>, name: string)
    requires pieces != []
    ensures Names(pieces, name) <==> NameOf(pieces[0]) == name || Names(pieces[1..], name)
  {
    if Names(pieces, name) {
      var i :| 0 <= i < |pieces| && NameOf(pieces[i]) == name;
      assert i > 0 ==> pieces[1..][i - 1] == pieces[i];
    }
    if Names(pieces[1..], name) {
      var i :| 0 <= i < |pieces[1..]| && NameOf(pieces[1..][i]) == name;
      assert pieces[i + 1] == pieces[1..][i];
    }
  }

  lemma {:induction false} CollectedNames(pieces: seq<string>, found: map<string, string>, name: string)
    ensures name in Collect(pieces, found) <==> name in found || Names(pieces, name)
  {
    if pieces != [] {
      CollectedNames(pieces[1..], found[NameOf(pieces[0]) := ValueOf(pieces[0])], name);
      NamesFirst(pieces, name);
    }
  }

  // ---- Printing and parsing back ----

  datatype Directive = Directive(name: string, value: Option<string>)

  ghost predicate WellFormed(d: Directive) {
    && d.name != "" && d.name[0] != ' '
    && ',' !in d.name && '=' !in d.name
    && (d.value.Some? ==> ',' !in d.value.value)
  }

  function Spaces(n: nat): string {
    seq(n, _ => ' ')
  }

  function PrintOne(d: Directive, padding: nat): string {
    Spaces(padding) + d.name + match d.value case None => "" case Some(v) => "=" + v
  }

  function PrintPieces(ds: seq<Directive>, paddings: seq<nat>): (pieces: seq<string>)
    requires |paddings| == |ds|
    ensures |pieces| == |ds|
  {
    if ds == [] then []
    else PrintPieces(ds[..|ds| - 1], paddings[..|ds| - 1]) + [PrintOne(ds[|ds| - 1], paddings[|ds| - 1])]
  }

  function Print(ds: seq<Directive>, paddings: seq<nat>): string
    requires |paddings| == |ds|
  {
    if ds == [] then "" else Join(PrintPieces(ds, paddings))
  }

  /** What a list of directives means: a later one replaces an earlier one of the same name. */
  function LastWins(ds: seq<Directive>): map<string, string> {
    if ds == [] then map[]
    else
      var d := ds[|ds| - 1];
      LastWins(ds[..|ds| - 1])[d.name := match d.value case None => "" case Some(v) => v]
  }

  lemma {:induction false} StripSpaces(n: nat, s: string)
    requires s == "" || s[0] != ' '
    ensures Strip(Spaces(n) + s) == s
  {
    if n == 0 {
      assert Spaces(n) + s == s;
    } else {
      StripSpaces(n - 1, s);
      assert (Spaces(n) + s)[1..] == Spaces(n - 1) + s;
    }
  }

  lemma StrippedDirective(d: Directive, padding: nat)
    requires WellFormed(d)
    ensures Strip(PrintOne(d, padding)) == PrintOne(d, 0)
  {
    var body := PrintOne(d, 0);
    assert body == d.name + match d.value case None => "" case Some(v) => "=" + v;
    assert PrintOne(d, padding) == Spaces(padding) + body;
    StripSpaces(padding, body);
  }

  lemma CutDirective(d: Directive)
    requires WellFormed(d)
    ensures var body := PrintOne(d, 0);
            && Find(body, '=') == |d.name| && body[..|d.name|] == d.name
            && (if d.value.None? then |body| == |d.name|
                else |body| > |d.name| && body[|d.name| + 1..] == d.value.value)
  {
    var body := PrintOne(d, 0);
    assert body == d.name + match d.value case None => "" case Some(v) => "=" + v;
    assert body[..|d.name|] == d.name;
    FindIn(body, '=', |d.name|);
  }

  lemma PrintedDirective(d: Directive, padding: nat)
    requires WellFormed(d)
    ensures ',' !in PrintOne(d, padding)
    ensures NameOf(PrintOne(d, padding)) == d.name
    ensures ValueOf(PrintOne(d, padding)) == match d.value case None => "" case Some(v) => v
  {
    StrippedDirective(d, padding);
    CutDirective(d);
  }

  lemma {:induction false} PrintedPieces(ds: seq<Directive>, paddings: seq<nat>)
    requires |paddings| == |ds| && forall i :: 0 <= i < |ds| ==> WellFormed(ds[i])
    ensures forall i :: 0 <= i < |ds| ==> ',' !in PrintPieces(ds, paddings)[i]
    ensures Collect(PrintPieces(ds, paddings), map[]) == LastWins(ds)
  {
    if ds != [] {
      var n := |ds| - 1;
      PrintedPieces(ds[..n], paddings[..n]);
      PrintedDirective(ds[n], paddings[n]);
      CollectAppend(PrintPieces(ds[..n], paddings[..n]), PrintOne(ds[n], paddings[n]), map[]);
    }
  }

  /** Printing any list of directives, with any spaces before each, and parsing the text gives back its meaning. */
  lemma RoundTrip(ds: seq<Directive>, paddings: seq<nat>)
    requires |paddings| == |ds| && forall i :: 0 <= i < |ds| ==> WellFormed(ds[i])
    ensures Parse(Print(ds, paddings)) == LastWins(ds)
  {
    if ds != [] {
      PrintedPieces(ds, paddings);
      SplitJoin(PrintPieces(ds, paddings));
      PrintedTextIsNotEmpty(ds, paddings);
    }
  }

  lemma PrintedTextIsNotEmpty(ds: seq<Directive>, paddings: seq<nat>)
    requires |paddings| == |ds| && |ds| > 0 && forall i :: 0 <= i < |ds| ==> WellFormed(ds[i])
    ensures Print(ds, paddings) != ""
  {
    var pieces := PrintPieces(ds, paddings);
    if |ds| == 1 {
      assert pieces[0] == PrintOne(ds[0], paddings[0]);
    }
  }

  ghost predicate Lists(ds: seq<Directive>, name: string) {
    exists i :: 0 <= i < |ds| && ds[i].name == name
  }

  lemma {:induction false} LastWinsNames(ds: seq<Directive>, name: string)
    ensures name in LastWins(ds) <==> Lists(ds, name)
  {
    if ds != [] {
      var n := |ds| - 1;
      LastWinsNames(ds[..n], name);
      if Lists(ds[..n], name) {
        var i :| 0 <= i < n && ds[..n][i].name == name;
        assert ds[i].name == name;
      }
      if Lists(ds, name) {
        var i :| 0 <= i < |ds| && ds[i].name == name;
        assert i < n ==> ds[..n][i].name == name;
      }
    }
  }

  /** A printed header is refused by the cache exactly when it lists no-store or private. */
  lemma PrintedStorable(hs: seq<Http.Header>, ds: seq<Directive>, paddings: seq<nat>)
    requires |paddings| == |ds| && forall i :: 0 <= i < |ds| ==> WellFormed(ds[i])
    requires Http.First(hs, CACHE_CONTROL) == Some(Print(ds, paddings))
    ensures !Storable(hs) <==> Lists(ds, "no-store") || Lists(ds, "private")
  {
    RoundTrip(ds, paddings);
    LastWinsNames(ds, "no-store");
    LastWinsNames(ds, "private");
  }

  /** The first Cache-Control line has, between commas and up to leading spaces and '=', the given name. */
  ghost predicate Says(hs: seq<Http.Header>, name: string) {
    match Http.First(hs, "cache-control")
    case None => false
    case Some(text) => Names(Split(text), name)
  }

  lemma SaysIff(hs: seq<Http.Header>, name: string)
    requires name != ""
    ensures name in Directives(hs) <==> Says(hs, name)
  {
    if Http.First(hs, CACHE_CONTROL).Some? {
      ParsedNames(Http.First(hs, CACHE_CONTROL).value, name);
    }
  }

  /** For an arbitrary header text: refused exactly when some comma-separated piece, without its leading
      spaces and cut at '=', is no-store or private. */
  lemma StorableIff(hs: seq<Http.Header>)
    ensures !Storable(hs) <==> Says(hs, "no-store") || Says(hs, "private")
  {
    SaysIff(hs, "no-store");
    SaysIff(hs, "private");
  }

  /** The empty line has no directives, not even the empty one. */
  lemma EmptyTextIsEmpty(hs: seq<Http.Header>)
    requires Http.First(hs, "cache-control") in {None, Some("")}
    ensures Directives(hs) == map[]
  {
  }

  lemma ParsedNames(text: string, name: string)
    requires name != ""
    ensures name in Parse(text) <==> Names(Split(text), name)
  {
    CollectedNames(Split(text), map[], name);
    if text == "" {
      assert Split(text) == [""] && NameOf("") == "";
    }
  }

  /** A trailing comma always adds the empty directive, also to the empty text, which on its own has none. */
  lemma TrailingComma(text: string)
    ensures Parse(text + ",") == Parse(text)["" := ""]
  {
    var pieces := Split(text);
    SplitCuts(text);
    JoinAppend(pieces, "");
    SplitJoin(pieces + [""]);
    assert Join(pieces) + "," + "" == text + ",";
    CollectAppend(pieces, "", map[]);
    assert text == "" ==> pieces == [""] && Collect(pieces, map[]) == map["" := ""];
  }

  lemma {:induction false} JoinAppend(pieces: seq<string>, last: string)
    requires |pieces| > 0
    ensures Join(pieces + [last]) == Join(pieces) + "," + last
  {
    assert (pieces + [last])[1..] == pieces[1..] + [last];
    if |pieces| > 1 {
      JoinAppend(pieces[1..], last);
    }
  }

  /** A second Cache-Control line has no effect at all, not even one that forbids storing. */
  lemma LaterLinesAreIgnored(hs: seq<Http.Header>, text: string)
    requires Http.First(hs, CACHE_CONTROL).Some?
    ensures Directives(hs + [Http.Header(CACHE_CONTROL, text)]) == Directives(hs)
  {
    Http.ValuesConcat(hs, [Http.Header(CACHE_CONTROL, text)], CACHE_CONTROL);
  }
}
