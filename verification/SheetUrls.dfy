/** Turning the address of a spreadsheet into the address of its CSV export
    (src/common/rqcommon/src/utils/rqgsheets.rs, convert_to_csv_export_url). */
module SheetUrls {
  import opened Wrappers

  // ---------- Splitting at a pattern ----------

  predicate MatchesAt(s: string, pattern: string, i: int) {
    0 <= i && i + |pattern| <= |s| && s[i..i + |pattern|] == pattern
  }

  ghost predicate Contains(s: string, pattern: string) {
    exists i :: MatchesAt(s, pattern, i)
  }

  /** The first match at or after position from. */
  function Find(s: string, pattern: string, from: nat): (r: Option<nat>)
    ensures r.Some? ==> from <= r.value && MatchesAt(s, pattern, r.value)
    ensures r.Some? ==> forall i :: from <= i < r.value ==> !MatchesAt(s, pattern, i)
    ensures r.None? ==> forall i :: from <= i ==> !MatchesAt(s, pattern, i)
    decreases |s| - from
  {
    if from + |pattern| > |s| then None
    else if MatchesAt(s, pattern, from) then Some(from)
    else Find(s, pattern, from + 1)
  }

  /** The pieces between the matches, as Rust's split gives them. */
  function Split(s: string, pattern: string): (pieces: seq<string>)
    requires pattern != ""
    ensures pieces != []
  {
    match Find(s, pattern, 0)
    case None => [s]
    case Some(i) => [s[..i]] + Split(s[i + |pattern|..], pattern)
  }

  function Join(pieces: seq<string>, pattern: string): string
    requires pieces != []
  {
    if |pieces| == 1 then pieces[0] else pieces[0] + pattern + Join(pieces[1..], pattern)
  }

  /** The pieces are what the pattern separates: joined they give the text back, and none contains the pattern. */
  lemma {:induction false} SplitJoins(s: string, pattern: string)
    requires pattern != ""
    ensures Join(Split(s, pattern), pattern) == s
    ensures forall k :: 0 <= k < |Split(s, pattern)| ==> !Contains(Split(s, pattern)[k], pattern)
  {
    match Find(s, pattern, 0)
    case None =>
    case Some(i) =>
      SplitJoins(s[i + |pattern|..], pattern);
      assert s == s[..i] + pattern + s[i + |pattern|..];
      NoMatchBeforeFirst(s, pattern, i);
  }

  lemma NoMatchBeforeFirst(s: string, pattern: string, i: nat)
    requires pattern != "" && Find(s, pattern, 0) == Some(i)
    ensures !Contains(s[..i], pattern)
  {
    forall j | MatchesAt(s[..i], pattern, j) ensures MatchesAt(s, pattern, j) {
      assert s[..i][j..j + |pattern|] == s[j..j + |pattern|];
    }
  }

  lemma FindUnique(s: string, pattern: string, i: nat)
    requires MatchesAt(s, pattern, i) && forall j :: 0 <= j < i ==> !MatchesAt(s, pattern, j)
    ensures Find(s, pattern, 0) == Some(i)
  {
  }

  lemma MatchBesideBarrier(a: string, c: char, b: string, pattern: string, i: int)
    requires c !in pattern && pattern != ""
    ensures MatchesAt(a + [c] + b, pattern, i) <==> MatchesAt(a, pattern, i) || MatchesAt(b, pattern, i - |a| - 1)
  {
    var s := a + [c] + b;
    var j := i + |pattern|;
    if 0 <= i && j <= |a| {
      assert s[i..j] == a[i..j];
    } else if |a| < i && j <= |s| {
      assert s[i..j] == b[i - |a| - 1..j - |a| - 1];
    } else if 0 <= i <= |a| && j <= |s| {
      assert s[i..j][|a| - i] == c;
    }
  }

  // A character that does not occur in the pattern separates the matches before it from those after it.

  lemma FoundBeforeBarrier(a: string, c: char, b: string, pattern: string)
    requires c !in pattern && pattern != "" && Find(a, pattern, 0).Some?
    ensures Find(a + [c] + b, pattern, 0) == Find(a, pattern, 0)
  {
    var k := Find(a, pattern, 0).value;
    MatchBesideBarrier(a, c, b, pattern, k);
    forall j | 0 <= j < k ensures !MatchesAt(a + [c] + b, pattern, j) {
      MatchBesideBarrier(a, c, b, pattern, j);
    }
    FindUnique(a + [c] + b, pattern, k);
  }

  lemma {:induction false} FoundAfterBarrier(a: string, c: char, b: string, pattern: string)
    requires c !in pattern && pattern != "" && Find(a, pattern, 0).None? && Find(b, pattern, 0).Some?
    ensures Find(a + [c] + b, pattern, 0) == Some(|a| + 1 + Find(b, pattern, 0).value)
  {
    var k := |a| + 1 + Find(b, pattern, 0).value;
    MatchBesideBarrier(a, c, b, pattern, k);
    forall j | 0 <= j < k ensures !MatchesAt(a + [c] + b, pattern, j) {
      MatchBesideBarrier(a, c, b, pattern, j);
      assert !MatchesAt(a, pattern, j);
    }
    FindUnique(a + [c] + b, pattern, k);
  }

  lemma NotFoundBesideBarrier(a: string, c: char, b: string, pattern: string)
    requires c !in pattern && pattern != "" && Find(a, pattern, 0).None? && Find(b, pattern, 0).None?
    ensures Find(a + [c] + b, pattern, 0) == None
  {
    var found := Find(a + [c] + b, pattern, 0);
    if found.Some? { MatchBesideBarrier(a, c, b, pattern, found.value); }
  }

  /** A match at the start of t, behind a barrier. */
  lemma FoundRightAfterBarrier(b: string, d: char, t: string, pattern: string)
    requires d !in pattern && pattern != "" && Find(b, pattern, 0).None? && pattern <= t
    ensures Find(b + [d] + t, pattern, 0) == Some(|b| + 1)
  {
    assert MatchesAt(t, pattern, 0);
    FindUnique(t, pattern, 0);
    FoundAfterBarrier(b, d, t, pattern);
  }

  /** The first match of a text with a match behind the barrier. */
  lemma FoundOnOneSide(a: string, c: char, u: string, pattern: string, p: nat)
    requires c !in pattern && pattern != "" && Find(u, pattern, 0) == Some(p)
    ensures Find(a + [c] + u, pattern, 0) ==
      if Find(a, pattern, 0).Some? then Find(a, pattern, 0) else Some(|a| + 1 + p)
  {
    if Find(a, pattern, 0).Some? {
      FoundBeforeBarrier(a, c, u, pattern);
    } else {
      FoundAfterBarrier(a, c, u, pattern);
    }
  }

  // ---------- The conversion ----------

  const HOST := "https://docs.google.com/spreadsheets"

  /** The address of the CSV export of one sheet. */
  function ExportUrl(sheetId: string, gid: string): string {
    HOST + "/d/" + sheetId + "/export?format=csv&gid=" + gid
  }

  function SheetId(url: string): string {
    var pieces := Split(url, "/d/");
    if |pieces| > 1 then Split(pieces[1], "/")[0] else ""
  }

  function Gid(url: string): string {
    var pieces := Split(url, "gid=");
    if |pieces| > 1 then Split(pieces[1], "&")[0] else "0"
  }

  function ConvertToCsvExportUrl(url: string): string {
    ExportUrl(SheetId(url), Gid(url))
  }

  lemma NotFoundWithoutChar(s: string, pattern: string, k: nat)
    requires k < |pattern| && pattern[k] !in s
    ensures Find(s, pattern, 0) == None
  {
  }

  // ---------- Pieces ----------

  /** The text before the first match, or all of it. */
  function Head(s: string, pattern: string): string
    requires pattern != ""
  {
    Split(s, pattern)[0]
  }

  /** The piece after the first match is the head of what follows the match. */
  lemma SecondPiece(s: string, pattern: string, i: nat, rest: string)
    requires pattern != "" && Find(s, pattern, 0) == Some(i) && rest == s[i + |pattern|..]
    ensures |Split(s, pattern)| > 1 && Split(s, pattern)[1] == Head(rest, pattern)
  {
  }

  lemma HeadIsPrefix(s: string, pattern: string)
    requires pattern != ""
    ensures Head(s, pattern) <= s
  {
  }

  lemma HeadWithoutChar(s: string, c: char)
    ensures c !in Head(s, [c])
  {
    SplitJoins(s, [c]);
    var head := Head(s, [c]);
    forall i | 0 <= i < |head| ensures head[i] != c {
      if head[i] == c { assert MatchesAt(head, [c], i); }
    }
  }

  lemma PrefixContainsLess(s: string, t: string, pattern: string)
    requires s <= t && !Contains(t, pattern)
    ensures !Contains(s, pattern)
  {
    forall i ensures MatchesAt(s, pattern, i) ==> MatchesAt(t, pattern, i) {
      if 0 <= i && i + |pattern| <= |s| { assert s[i..i + |pattern|] == t[i..i + |pattern|]; }
    }
  }

  lemma HeadOfFree(s: string, pattern: string)
    requires pattern != "" && !Contains(s, pattern)
    ensures Head(s, pattern) == s
  {
  }

  lemma HeadUpToChar(s: string, c: char, t: string)
    requires c !in s
    ensures Head(s, [c]) == s && Head(s + [c] + t, [c]) == s
  {
    NotFoundWithoutChar(s, [c], 0);
    var u := s + [c] + t;
    assert MatchesAt(u, [c], |s|);
    forall i | 0 <= i < |s| ensures !MatchesAt(u, [c], i) {
      assert u[i..i + 1][0] != c;
    }
    FindUnique(u, [c], |s|);
  }

  // ---------- What is extracted from an address ----------

  lemma ExtractedParts(url: string)
    ensures '/' !in SheetId(url)
    ensures '&' !in Gid(url) && !Contains(Gid(url), "gid=")
  {
    var ids, gids := Split(url, "/d/"), Split(url, "gid=");
    if |ids| > 1 { HeadWithoutChar(ids[1], '/'); }
    if |gids| > 1 {
      HeadWithoutChar(gids[1], '&');
      SplitJoins(url, "gid=");
      HeadIsPrefix(gids[1], "&");
      PrefixContainsLess(Gid(url), gids[1], "gid=");
    }
  }

  /** The sheet id is what stands between the first "/d/" and the next slash. */
  lemma IdBeforeSlash(url: string, host: string, c: char, sheetId: string, tail: string)
    requires c !in "/d/" && Find(host, "/d/", 0).None? && '/' !in sheetId
    requires url == host + [c] + ("/d/" + (sheetId + ['/'] + tail))
    ensures SheetId(url) == sheetId
  {
    var rest := sheetId + ['/'] + tail;
    FoundRightAfterBarrier(host, c, "/d/" + rest, "/d/");
    assert url[|host| + 4..] == rest;
    SecondPiece(url, "/d/", |host| + 1, rest);
    HeadKeepsId(sheetId, tail);
  }

  lemma HeadKeepsId(sheetId: string, tail: string)
    requires '/' !in sheetId
    ensures Head(Head(sheetId + ['/'] + tail, "/d/"), "/") == sheetId
  {
    var rest := sheetId + ['/'] + tail;
    var piece := Head(rest, "/d/");
    var found := Find(rest, "/d/", 0);
    if found.Some? { assert rest[found.value] == rest[found.value..found.value + 3][0] == '/'; }
    assert |sheetId| <= |piece| && piece == rest[..|piece|];
    if |piece| == |sheetId| {
      assert piece == sheetId;
      HeadUpToChar(sheetId, '/', "");
    } else {
      assert piece == sheetId + ['/'] + tail[..|piece| - |sheetId| - 1];
      HeadUpToChar(sheetId, '/', tail[..|piece| - |sheetId| - 1]);
    }
  }

  // The gid when the part before the id has none: it is read from the id if that contains "gid=", else from the query
  // text behind it.

  lemma GidInId(url: string, host: string, sheetId: string, query: string, k: nat)
    requires url == host + ['/'] + (sheetId + ['/'] + query)
    requires Find(host, "gid=", 0).None? && Find(sheetId, "gid=", 0) == Some(k)
    ensures Gid(url) == Head(Head(sheetId[k + 4..] + ['/'] + query, "gid="), "&")
  {
    FoundBeforeBarrier(sheetId, '/', query, "gid=");
    InsidePrefix(sheetId, '/', query, k + 4);
    GidBehindHost(url, host, sheetId + ['/'] + query, k, sheetId[k + 4..] + ['/'] + query);
  }

  lemma GidInQuery(url: string, host: string, sheetId: string, query: string, p: nat)
    requires url == host + ['/'] + (sheetId + ['/'] + query)
    requires Find(host, "gid=", 0).None? && Find(sheetId, "gid=", 0).None? && Find(query, "gid=", 0) == Some(p)
    ensures Gid(url) == Head(Head(query[p + 4..], "gid="), "&")
  {
    FoundAfterBarrier(sheetId, '/', query, "gid=");
    GidBehindFront(url, host, sheetId + ['/'], query, p, sheetId + ['/'] + query, query[p + 4..]);
  }

  lemma GidBehindFront(url: string, host: string, front: string, query: string, p: nat, after: string, rest: string)
    requires url == host + ['/'] + after && after == front + query && p + 4 <= |query| && rest == query[p + 4..]
    requires Find(host, "gid=", 0).None? && Find(after, "gid=", 0) == Some(|front| + p)
    ensures Gid(url) == Head(Head(rest, "gid="), "&")
  {
    var q := |front| + p;
    BehindPrefix(front, query, p + 4, after, q + 4, rest);
    GidBehindHost(url, host, after, q, rest);
  }

  lemma InsidePrefix(a: string, c: char, b: string, k: nat)
    requires k <= |a|
    ensures (a + [c] + b)[k..] == a[k..] + [c] + b
  {
  }

  lemma GidBehindHost(url: string, host: string, after: string, q: nat, rest: string)
    requires url == host + ['/'] + after && Find(host, "gid=", 0).None? && Find(after, "gid=", 0) == Some(q)
    requires rest == after[q + 4..]
    ensures Gid(url) == Head(Head(rest, "gid="), "&")
  {
    FoundAfterBarrier(host, '/', after, "gid=");
    PieceBehind(url, host + ['/'], after, q, "gid=");
  }

  lemma PieceBehind(url: string, front: string, after: string, q: nat, pattern: string)
    requires pattern != "" && q + |pattern| <= |after|
    requires url == front + after && Find(url, pattern, 0) == Some(|front| + q)
    ensures |Split(url, pattern)| > 1 && Split(url, pattern)[1] == Head(after[q + |pattern|..], pattern)
  {
    BehindPrefix(front, after, q + |pattern|, url, |front| + q + |pattern|, after[q + |pattern|..]);
    SecondPiece(url, pattern, |front| + q, after[q + |pattern|..]);
  }

  lemma BehindPrefix(a: string, b: string, k: nat, whole: string, i: nat, rest: string)
    requires k <= |b| && whole == a + b && i == |a| + k && rest == b[k..]
    ensures whole[i..] == rest
  {
  }

  /** Only the text up to the next match matters to the head. */
  lemma HeadBeforeMatch(a: string, pattern: string, more: string)
    requires pattern != "" && Find(a + more, pattern, 0) ==
      if Find(a, pattern, 0).Some? then Find(a, pattern, 0) else Some(|a|)
    ensures Head(a + more, pattern) == Head(a, pattern)
  {
    match Find(a, pattern, 0)
    case Some(m) => assert (a + more)[..m] == a[..m];
    case None => assert (a + more)[..|a|] == a;
  }

  // ---------- The host of a converted address ----------

  // HOST without its last letter.
  function HostInit(): string {
    "https://d" + ['o'] + ("cs.google.com/" + ['s'] + "preadsheet")
  }

  lemma HostParts()
    ensures HOST == HostInit() + ['s']
  {
  }

  lemma {:induction false} HostInitHasNoId()
    ensures Find(HostInit(), "/d/", 0) == None
  {
    NoIdInTail("cs.google.com/", "preadsheet");
    NoIdInStart();
    NotFoundBesideBarrier("https://d", 'o', "cs.google.com/" + ['s'] + "preadsheet", "/d/");
  }

  lemma NoIdInStart()
    ensures Find("https://d", "/d/", 0) == None
  {
    var start := "//d";
    assert start[0..3][1] != "/d/"[1];
    NotFoundWithoutChar("https", "/d/", 0);
    NotFoundBesideBarrier("https", ':', start, "/d/");
    assert "https://d" == "https" + [':'] + start;
  }

  lemma NoIdInTail(a: string, b: string)
    requires 'd' !in a && '/' !in b
    ensures Find(a + ['s'] + b, "/d/", 0) == None
  {
    NotFoundWithoutChar(a, "/d/", 1);
    NotFoundWithoutChar(b, "/d/", 0);
    NotFoundBesideBarrier(a, 's', b, "/d/");
  }

  lemma HostHasNoGid()
    ensures Find(HOST + "/d", "gid=", 0) == None
  {
    NotFoundWithoutChar(HOST + "/d", "gid=", 3);
  }

  lemma ExportShape(sheetId: string, gid: string)
    ensures ExportUrl(sheetId, gid) == HostInit() + ['s'] + ("/d/" + (sheetId + ['/'] + ExportQuery(gid)))
    ensures ExportUrl(sheetId, gid) == (HOST + "/d") + ['/'] + (sheetId + ['/'] + ExportQuery(gid))
  {
    HostParts();
    assert "/export?format=csv&gid=" + gid == ['/'] + ExportQuery(gid);
    Regroup(HostInit(), 's', HOST, sheetId, ExportQuery(gid));
  }

  lemma Regroup(init: string, c: char, host: string, sheetId: string, query: string)
    requires host == init + [c]
    ensures host + "/d/" + sheetId + (['/'] + query) == init + [c] + ("/d/" + (sheetId + ['/'] + query))
    ensures host + "/d/" + sheetId + (['/'] + query) == (host + "/d") + ['/'] + (sheetId + ['/'] + query)
  {
  }

  function ExportQuery(gid: string): string {
    "export?format=csv&gid=" + gid
  }

  lemma GidInExportQuery(gid: string)
    ensures Find(ExportQuery(gid), "gid=", 0) == Some(18)
  {
    GidAfter("export?format=csv", '&', gid);
    assert ExportQuery(gid) == "export?format=csv" + ['&'] + ("gid=" + gid);
  }

  lemma GidAfter(before: string, c: char, more: string)
    requires 'g' !in before && c !in "gid="
    ensures Find(before + [c] + ("gid=" + more), "gid=", 0) == Some(|before| + 1)
  {
    NotFoundWithoutChar(before, "gid=", 0);
    FoundRightAfterBarrier(before, c, "gid=" + more, "gid=");
  }

  /** If the sheet id contains "gid=", the gid read back from the converted address is this text inside it. */
  function InnerGid(sheetId: string): string {
    match Find(sheetId, "gid=", 0)
    case None => ""
    case Some(k) => Head(Head(sheetId[k + 4..] + ['/'] + "export?format=csv&", "gid="), "&")
  }

  lemma HeadInsideId(b: string, gid: string)
    ensures Head(b + ['/'] + ExportQuery(gid), "gid=") == Head(b + ['/'] + "export?format=csv&", "gid=")
  {
    GidInExportQuery(gid);
    ExportQueryParts(gid);
    NotFoundWithoutChar("export?format=csv&", "gid=", 0);
    HeadInsideQuery(b, "export?format=csv&", gid, ExportQuery(gid));
  }

  lemma ExportQueryParts(gid: string)
    ensures ExportQuery(gid) == "export?format=csv&" + ("gid=" + gid)
  {
  }

  lemma HeadInsideQuery(b: string, tail: string, gid: string, query: string)
    requires query == tail + ("gid=" + gid) && Find(tail, "gid=", 0).None? && Find(query, "gid=", 0) == Some(|tail|)
    ensures Head(b + ['/'] + query, "gid=") == Head(b + ['/'] + tail, "gid=")
  {
    HeadInside(b, tail, "gid=" + gid, "gid=");
  }

  /** Behind the first match, the text does not matter to the head. */
  lemma HeadInside(b: string, tail: string, more: string, pattern: string)
    requires pattern != "" && '/' !in pattern
    requires Find(tail, pattern, 0).None? && Find(tail + more, pattern, 0) == Some(|tail|)
    ensures Head(b + ['/'] + (tail + more), pattern) == Head(b + ['/'] + tail, pattern)
  {
    FoundOnOneSide(b, '/', tail + more, pattern, |tail|);
    FoundOnlyBefore(b, '/', tail, pattern);
    Associate(b + ['/'], tail, more);
    HeadBeforeMatch(b + ['/'] + tail, pattern, more);
  }

  lemma Associate(a: string, b: string, c: string)
    ensures (a + b) + c == a + (b + c)
  {
  }

  lemma FoundOnlyBefore(a: string, c: char, b: string, pattern: string)
    requires c !in pattern && pattern != "" && Find(b, pattern, 0).None?
    ensures Find(a + [c] + b, pattern, 0) == Find(a, pattern, 0)
  {
    if Find(a, pattern, 0).Some? {
      FoundBeforeBarrier(a, c, b, pattern);
    } else {
      NotFoundBesideBarrier(a, c, b, pattern);
    }
  }

  lemma {:induction false} GidOfExport(sheetId: string, gid: string)
    requires '&' !in gid && !Contains(gid, "gid=")
    ensures Gid(ExportUrl(sheetId, gid)) == if Find(sheetId, "gid=", 0).Some? then InnerGid(sheetId) else gid
  {
    HostHasNoGid();
    ExportShape(sheetId, gid);
    GidInExportQuery(gid);
    match Find(sheetId, "gid=", 0)
    case Some(k) =>
      GidInId(ExportUrl(sheetId, gid), HOST + "/d", sheetId, ExportQuery(gid), k);
      HeadInsideId(sheetId[k + 4..], gid);
    case None =>
      GidInQuery(ExportUrl(sheetId, gid), HOST + "/d", sheetId, ExportQuery(gid), 18);
      assert ExportQuery(gid)[22..] == gid;
      HeadOfFree(gid, "gid=");
      HeadUpToChar(gid, '&', "");
  }

  lemma SheetIdOfExport(sheetId: string, gid: string)
    requires '/' !in sheetId
    ensures SheetId(ExportUrl(sheetId, gid)) == sheetId
  {
    HostInitHasNoId();
    ExportShape(sheetId, gid);
    IdBeforeSlash(ExportUrl(sheetId, gid), HostInit(), 's', sheetId, ExportQuery(gid));
  }

  /** Converting a converted address changes nothing, exactly if the extracted sheet id does not contain "gid=" or the
      text inside it happens to be the extracted gid. */
  lemma ConversionIdempotentIff(url: string)
    ensures ConvertToCsvExportUrl(ConvertToCsvExportUrl(url)) == ConvertToCsvExportUrl(url) <==>
      !Contains(SheetId(url), "gid=") || Gid(url) == InnerGid(SheetId(url))
  {
    var id, gid := SheetId(url), Gid(url);
    ExtractedParts(url);
    SheetIdOfExport(id, gid);
    GidOfExport(id, gid);
    ExportInjective(id, gid, Gid(ExportUrl(id, gid)));
  }

  lemma ExportInjective(sheetId: string, gid: string, other: string)
    ensures ExportUrl(sheetId, gid) == ExportUrl(sheetId, other) <==> gid == other
  {
    var front := HOST + "/d/" + sheetId + "/export?format=csv&gid=";
    if ExportUrl(sheetId, gid) == ExportUrl(sheetId, other) {
      assert gid == (front + gid)[|front|..] == (front + other)[|front|..] == other;
    }
  }

  /** Concretely: the id of this address contains "gid=", and its second conversion differs from the first. */
  lemma ConvertedTwiceExample()
    ensures var once := ConvertToCsvExportUrl(HOST + "/d/gid=5/edit");
      once == ExportUrl("gid=5", "5/edit") && ConvertToCsvExportUrl(once) == ExportUrl("gid=5", "5/export?format=csv") != once
  {
    ConvertedOnceExample();
    ConvertedAgainExample("gid=5", "5/edit");
  }

  lemma ConvertedOnceExample()
    ensures ConvertToCsvExportUrl(HOST + "/d/gid=5/edit") == ExportUrl("gid=5", "5/edit")
  {
    ConvertedGidInId("gid=5", "5", "edit");
    JoinedPath(HOST);
    assert "5" + ['/'] + "edit" == "5/edit";
  }

  lemma JoinedPath(host: string)
    ensures host + "/d/" + "gid=5" + "/" + "edit" == host + "/d/gid=5/edit"
  {
    assert "/d/gid=5/edit" == "/d/" + "gid=5" + "/" + "edit";
  }

  lemma ConvertedGidInId(id: string, rest: string, page: string)
    requires id == "gid=" + rest && '/' !in rest && 'g' !in rest && '&' !in rest && 'g' !in page && '&' !in page
    ensures ConvertToCsvExportUrl(HOST + "/d/" + id + "/" + page) == ExportUrl(id, rest + ['/'] + page)
  {
    SheetIdOfPage(id, page);
    GidInIdOf(PageText(id, page), rest, page);
  }

  lemma ConvertedAgainExample(id: string, gid: string)
    requires id == "gid=5" && gid == "5/edit"
    ensures ConvertToCsvExportUrl(ExportUrl(id, gid)) == ExportUrl(id, "5/export?format=csv") != ExportUrl(id, gid)
  {
    NotFoundWithoutChar(gid, "gid=", 0);
    SheetIdOfExport(id, gid);
    GidOfExport(id, gid);
    InnerGidExample();
    ExportInjective(id, gid, "5/export?format=csv");
    assert |gid| != |"5/export?format=csv"|;
  }

  /** The gid of an address whose id starts with "gid=". */
  lemma GidInIdOf(url: string, rest: string, query: string)
    requires url == PageText("gid=" + rest, query) && 'g' !in rest && '&' !in rest && 'g' !in query && '&' !in query
    ensures Gid(url) == rest + ['/'] + query
  {
    var after := ("gid=" + rest) + ['/'] + query;
    var text := rest + ['/'] + query;
    assert after == "gid=" + text;
    PageShape("gid=" + rest, query);
    HostHasNoGid();
    assert MatchesAt(after, "gid=", 0);
    FindUnique(after, "gid=", 0);
    assert after[4..] == text;
    GidBehindHost(url, HOST + "/d", after, 0, text);
    NotFoundWithoutChar(text, "gid=", 0);
    HeadOfFree(text, "gid=");
    HeadUpToChar(text, '&', "");
  }

  lemma InnerGidExample()
    ensures InnerGid("gid=5") == "5/export?format=csv" && Find("gid=5", "gid=", 0).Some?
  {
    assert MatchesAt("gid=5", "gid=", 0);
    FindUnique("gid=5", "gid=", 0);
    assert "gid=5"[4..] + ['/'] + "export?format=csv&" == "5/export?format=csv" + ['&'];
    HeadOfPlain("5/export?format=csv", "gid=", '&');
  }

  /** The head of a text without the pattern's first character, up to a closing character. */
  lemma HeadOfPlain(s: string, pattern: string, c: char)
    requires pattern != "" && pattern[0] !in s && pattern[0] != c && c !in s
    ensures Head(Head(s + [c], pattern), [c]) == s
  {
    NotFoundWithoutChar(s + [c], pattern, 0);
    HeadOfFree(s + [c], pattern);
    HeadUpToChar(s, c, "");
    assert s + [c] + "" == s + [c];
  }

  /** An address without "gid=" exports the first sheet, one without "/d/" no spreadsheet. */
  lemma {:induction false} DefaultParts(url: string)
    ensures !Contains(url, "gid=") ==> Gid(url) == "0"
    ensures !Contains(url, "/d/") ==> SheetId(url) == ""
  {
    SplitJoins(url, "gid=");
    SplitJoins(url, "/d/");
  }

  // ---------- Addresses that name a sheet ----------

  /** An address within the spreadsheet. */
  function PageText(sheetId: string, page: string): string {
    HOST + "/d/" + sheetId + "/" + page
  }

  /** An address that names the sheet with this gid in its query; the tail is what follows the gid. */
  function SheetUrl(sheetId: string, page: string, gid: string, tail: string): string {
    PageText(sheetId, page + ['?'] + ("gid=" + (gid + tail)))
  }

  lemma PageShape(sheetId: string, page: string)
    ensures PageText(sheetId, page) == HostInit() + ['s'] + ("/d/" + (sheetId + ['/'] + page))
    ensures PageText(sheetId, page) == (HOST + "/d") + ['/'] + (sheetId + ['/'] + page)
  {
    HostParts();
    assert PageText(sheetId, page) == HOST + "/d/" + sheetId + (['/'] + page);
    Regroup(HostInit(), 's', HOST, sheetId, page);
  }

  /** The gid ends where the address ends, or at an '&', or directly before a second "gid=". */
  ghost predicate EndsGid(tail: string) {
    tail == "" || tail[0] == '&' || "gid=" <= tail
  }

  /** The head is the text up to the first match. */
  lemma HeadIs(s: string, pattern: string)
    requires pattern != ""
    ensures Head(s, pattern) == match Find(s, pattern, 0) case Some(i) => s[..i] case None => s
  {
  }

  lemma MatchBehind(s: string, t: string, pattern: string, j: int)
    requires pattern != "" && pattern[0] !in s
    ensures MatchesAt(s + t, pattern, j) <==> MatchesAt(t, pattern, j - |s|)
  {
    if |s| <= j && j + |pattern| <= |s + t| {
      assert (s + t)[j..j + |pattern|] == t[j - |s|..j - |s| + |pattern|];
    } else if 0 <= j < |s| && j + |pattern| <= |s + t| {
      assert (s + t)[j..j + |pattern|][0] == s[j];
    }
  }

  /** A prefix without the pattern's first character moves the first match on. */
  lemma FindBehind(s: string, t: string, pattern: string)
    requires pattern != "" && pattern[0] !in s
    ensures Find(s + t, pattern, 0) == match Find(t, pattern, 0) case Some(i) => Some(|s| + i) case None => None
  {
    forall j ensures MatchesAt(s + t, pattern, j) <==> MatchesAt(t, pattern, j - |s|) { MatchBehind(s, t, pattern, j); }
    match Find(t, pattern, 0)
    case Some(i) =>
      assert MatchesAt(s + t, pattern, |s| + i);
      FindUnique(s + t, pattern, |s| + i);
    case None =>
  }

  lemma HeadBehind(s: string, t: string, pattern: string)
    requires pattern != "" && pattern[0] !in s
    ensures Head(s + t, pattern) == s + Head(t, pattern)
  {
    FindBehind(s, t, pattern);
    HeadIs(t, pattern);
    HeadIs(s + t, pattern);
    var end := if Find(t, pattern, 0).Some? then Find(t, pattern, 0).value else |t|;
    assert (s + t)[..|s| + end] == s + t[..end];
  }

  lemma EmptyHeadIff(tail: string)
    ensures Head(Head(tail, "gid="), "&") == "" <==> EndsGid(tail)
  {
    var piece := Head(tail, "gid=");
    EmptyHeadAtMatch(tail, "gid=");
    EmptyHeadAtMatch(piece, "&");
    HeadIsPrefix(tail, "gid=");
    if piece != "" { assert piece[0] == tail[0]; }
    assert "&" <= piece <==> piece != "" && piece[0] == '&';
    if tail != "" && tail[0] == '&' { assert !("gid=" <= tail); }
  }

  lemma EmptyHeadAtMatch(s: string, pattern: string)
    requires pattern != ""
    ensures Head(s, pattern) == "" <==> s == "" || pattern <= s
  {
    HeadIs(s, pattern);
    if pattern <= s {
      assert MatchesAt(s, pattern, 0);
      FindUnique(s, pattern, 0);
    }
  }

  lemma GidOfSheetUrl(sheetId: string, page: string, gid: string, tail: string)
    requires Find(sheetId, "gid=", 0).None? && Find(page, "gid=", 0).None? && 'g' !in gid && '&' !in gid
    ensures Gid(SheetUrl(sheetId, page, gid, tail)) == gid + Head(Head(tail, "gid="), "&")
  {
    var query := page + ['?'] + ("gid=" + (gid + tail));
    PageShape(sheetId, query);
    HostHasNoGid();
    FoundRightAfterBarrier(page, '?', "gid=" + (gid + tail), "gid=");
    GidInQuery(SheetUrl(sheetId, page, gid, tail), HOST + "/d", sheetId, query, |page| + 1);
    assert ("gid=" + (gid + tail))[4..] == gid + tail;
    BehindPrefix(page + ['?'], "gid=" + (gid + tail), 4, query, |page| + 1 + 4, gid + tail);
    HeadBehind(gid, tail, "gid=");
    HeadBehind(gid, Head(tail, "gid="), "&");
  }

  /** For an address that names a sheet, on whatever page of the spreadsheet, the conversion yields the export of that
      sheet exactly if the gid is ended by the end of the address, by an '&' or by a second "gid=". */
  lemma NamedSheetIsExportedIff(sheetId: string, page: string, gid: string, tail: string)
    requires '/' !in sheetId && Find(sheetId, "gid=", 0).None? && Find(page, "gid=", 0).None?
    requires 'g' !in gid && '&' !in gid
    ensures ConvertToCsvExportUrl(SheetUrl(sheetId, page, gid, tail)) == ExportUrl(sheetId, gid) <==> EndsGid(tail)
  {
    var url, more := SheetUrl(sheetId, page, gid, tail), Head(Head(tail, "gid="), "&");
    SheetIdOfPage(sheetId, page + ['?'] + ("gid=" + (gid + tail)));
    GidOfSheetUrl(sheetId, page, gid, tail);
    ExportInjective(sheetId, gid + more, gid);
    EmptyHeadIff(tail);
    assert gid + more == gid <==> more == "";
  }

  lemma SheetIdOfPage(sheetId: string, page: string)
    requires '/' !in sheetId
    ensures SheetId(PageText(sheetId, page)) == sheetId
  {
    PageShape(sheetId, page);
    HostInitHasNoId();
    IdBeforeSlash(PageText(sheetId, page), HostInit(), 's', sheetId, page);
  }

  /** An address of the documented form, with the sheet named in the query and again in the fragment: the extracted gid
      keeps the '#' that starts the fragment. */
  lemma DocumentedAddress(sheetId: string, gid: string)
    requires '/' !in sheetId && Find(sheetId, "gid=", 0).None? && 'g' !in gid && '&' !in gid
    ensures ConvertToCsvExportUrl(SheetUrl(sheetId, "edit", gid, "#gid=" + gid)) == ExportUrl(sheetId, gid + "#")
  {
    var tail := ['#'] + ("gid=" + gid);
    assert tail == "#gid=" + gid;
    SheetIdOfPage(sheetId, "edit" + ['?'] + ("gid=" + (gid + tail)));
    NotFoundWithoutChar("edit", "gid=", 0);
    GidOfSheetUrl(sheetId, "edit", gid, tail);
    HashEnds(gid, tail);
  }

  lemma HashEnds(gid: string, tail: string)
    requires tail == ['#'] + ("gid=" + gid)
    ensures Head(Head(tail, "gid="), "&") == "#"
  {
    FindBehind("#", "gid=" + gid, "gid=");
    assert MatchesAt("gid=" + gid, "gid=", 0);
    FindUnique("gid=" + gid, "gid=", 0);
    HeadIs(tail, "gid=");
    HeadUpToChar("#", '&', "");
  }
}
