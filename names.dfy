/** The names the CT source derives from strings: the log name of a
    configured base URL (`download`), the meta and data file names of a
    log (`ct_sync`), the request URLs of the two RFC 6962 endpoints, and the
    destination name of a compressed shard in `normalize`. All of them are
    expression-only string transforms. */
module CtNames {
  import opened Util

  // ---------------------------------------------------------------------
  // Log names (download)
  // ---------------------------------------------------------------------

  /** The configured base with the run of '/' at its end removed. */
  function TrimTrailingSlashes(s: string): (r: string)
    ensures |r| <= |s| && r == s[..|r|]
    ensures r == [] || r[|r| - 1] != '/'
    ensures forall k :: |r| <= k < |s| ==> s[k] == '/'
    decreases |s|
  {
    if |s| > 0 && s[|s| - 1] == '/' then TrimTrailingSlashes(s[..|s| - 1]) else s
  }

  /** The three properties in TrimTrailingSlashes's contract determine its result. */
  lemma TrimTrailingSlashesUnique(s: string, r: string)
    requires |r| <= |s| && r == s[..|r|]
    requires r == [] || r[|r| - 1] != '/'
    requires forall k :: |r| <= k < |s| ==> s[k] == '/'
    ensures r == TrimTrailingSlashes(s)
  {
    var t := TrimTrailingSlashes(s);
    if r != [] {
      assert s[|r| - 1] != '/';
    }
    if t != [] {
      assert s[|t| - 1] != '/';
    }
    assert |r| == |t|;
  }

  /** Trimming twice trims nothing more. */
  lemma TrimTrailingSlashesIdempotent(s: string)
    ensures TrimTrailingSlashes(TrimTrailingSlashes(s)) == TrimTrailingSlashes(s)
  {
  }

  /** Every '/' becomes '_', every other character stays. */
  function ReplaceSlashes(s: string): (r: string)
    ensures |r| == |s|
    ensures '/' !in r
    ensures forall i :: 0 <= i < |s| && s[i] != '/' ==> r[i] == s[i]
  {
    seq(|s|, i requires 0 <= i < |s| => if s[i] == '/' then '_' else s[i])
  }

  /** The log name `download` derives from a configured base URL. */
  function LogName(base: string): string
  {
    ReplaceSlashes(TrimTrailingSlashes(base))
  }

  /** A log name is a flat file-name component of the same length as the
      trimmed base, and a base that is already trimmed gives the same name. */
  lemma LogNameShape(base: string)
    ensures '/' !in LogName(base)
    ensures |LogName(base)| == |TrimTrailingSlashes(base)|
    ensures LogName(TrimTrailingSlashes(base)) == LogName(base)
  {
    var n := LogName(base);
    assert forall i :: 0 <= i < |n| ==> n[i] != '/';
  }

  /** Two different configured logs can share a log name, and so a meta file
      and data files: a '/' and a '_' at the same place give the same name. */
  lemma LogNamesCanCollide(p: string, q: string)
    requires q != [] && q[|q| - 1] != '/'
    ensures p + "/" + q != p + "_" + q
    ensures LogName(p + "/" + q) == LogName(p + "_" + q)
  {
    var a, b := p + ("/" + q), p + ("_" + q);
    assert p + "/" + q == a && p + "_" + q == b;
    assert a[|p|] == '/' && b[|p|] == '_';
    NoTrailingSlash(p, "/", q);
    NoTrailingSlash(p, "_", q);
    ReplaceSlashesConcat(p, "/" + q);
    ReplaceSlashesConcat(p, "_" + q);
    ReplaceSlashesConcat("/", q);
    ReplaceSlashesConcat("_", q);
    ReplaceSlashesOne('/');
    ReplaceSlashesOne('_');
  }

  lemma ReplaceSlashesOne(c: char)
    ensures ReplaceSlashes([c]) == [if c == '/' then '_' else c]
  {
    var r := ReplaceSlashes([c]);
    assert |r| == 1 && r[0] == (if c == '/' then '_' else c);
  }

  lemma ReplaceSlashesConcat(x: string, y: string)
    ensures ReplaceSlashes(x + y) == ReplaceSlashes(x) + ReplaceSlashes(y)
  {
    var r, rx, ry := ReplaceSlashes(x + y), ReplaceSlashes(x), ReplaceSlashes(y);
    forall i | 0 <= i < |r|
      ensures r[i] == (rx + ry)[i]
    {
      if i < |x| {
        assert (x + y)[i] == x[i];
      } else {
        assert (x + y)[i] == y[i - |x|];
      }
    }
  }

  lemma NoTrailingSlash(p: string, c: string, q: string)
    requires q != [] && q[|q| - 1] != '/'
    ensures TrimTrailingSlashes(p + (c + q)) == p + (c + q)
  {
    var s := p + (c + q);
    assert s[|s| - 1] == q[|q| - 1];
  }

  // ---------------------------------------------------------------------
  // Per-log file names (ct_sync)
  // ---------------------------------------------------------------------

  /** The meta file of a log: its name followed by "_meta.json". */
  function MetaFileName(log: string): string { log + "_meta.json" }

  /** The log name, "_data_", the decimal start offset and ".json": the shard a pass starting at `start` appends to. */
  function DataFileName(log: string, start: int): string
  {
    log + "_data_" + IntToString(start) + ".json"
  }

  /** No meta file name is a data file name, whichever logs they belong to:
      the character before ".json" is 'a' in one and a digit in the other. */
  lemma MetaIsNeverData(metaLog: string, dataLog: string, start: int)
    ensures MetaFileName(metaLog) != DataFileName(dataLog, start)
  {
    var m, d := MetaFileName(metaLog), DataFileName(dataLog, start);
    if |m| == |d| {
      var digits := IntToString(start);
      assert m[|m| - 6] == 'a';
      assert d[|d| - 6] == digits[|digits| - 1];
      assert m[|m| - 6] != d[|d| - 6];
    }
  }

  /** Passes of one log that start at different cursors write different shards. */
  lemma DataFileNameInjective(log: string, s1: int, s2: int)
    requires DataFileName(log, s1) == DataFileName(log, s2)
    ensures s1 == s2
  {
    var d1, d2 := IntToString(s1), IntToString(s2);
    var p := log + "_data_";
    assert DataFileName(log, s1) == p + d1 + ".json";
    assert DataFileName(log, s2) == p + d2 + ".json";
    assert |d1| == |d2|;
    assert d1 == DataFileName(log, s1)[|p|..|p| + |d1|];
    assert d2 == DataFileName(log, s2)[|p|..|p| + |d2|];
    IntToStringInjective(s1, s2);
  }

  // ---------------------------------------------------------------------
  // Request URLs (RFC 6962, sections 4.3 and 4.6)
  // ---------------------------------------------------------------------

  /** The two log endpoints the mirror queries. */
  datatype Endpoint = GetSth | GetEntries(start: int, end: int)

  /** The path and query of an endpoint, appended to the log's base URL. */
  function Path(ep: Endpoint): string
  {
    match ep
    case GetSth => "/ct/v1/get-sth"
    case GetEntries(s, e) => "/ct/v1/get-entries?start=" + (IntToString(s) + ("&end=" + IntToString(e)))
  }

  /** The URL `ct_sync` hands to `ct_request` for an endpoint of the log at `base`. */
  function Url(base: string, ep: Endpoint): string
  {
    base + Path(ep)
  }

  lemma NoAmpersand(i: int)
    ensures '&' !in IntToString(i)
  {
    var s := IntToString(i);
    forall k | 0 <= k < |s|
      ensures s[k] != '&'
    {
      if k > 0 {
        assert s[k] == s[1..][k - 1];
      } else if i >= 0 {
        assert s == NatToString(i);
      }
    }
  }

  /** `x + y` splits uniquely at the first `c` when neither left part holds a `c`. */
  lemma SplitAtFirst(x1: string, y1: string, x2: string, y2: string, c: char)
    requires x1 + y1 == x2 + y2
    requires c !in x1 && c !in x2
    requires |y1| > 0 && y1[0] == c && |y2| > 0 && y2[0] == c
    ensures x1 == x2 && y1 == y2
  {
    var w := x1 + y1;
    assert w == x2 + y2;
    assert w[|x1|] == c && w[|x2|] == c;
    assert forall k :: 0 <= k < |x1| ==> w[k] == x1[k];
    assert forall k :: 0 <= k < |x2| ==> w[k] == x2[k];
    assert |x1| == |x2|;
    assert x1 == w[..|x1|] && x2 == w[..|x2|];
  }

  lemma CharAfterPrefix(p: string, x: string, k: int)
    requires 0 <= k < |p|
    ensures |p + x| > k && (p + x)[k] == p[k]
  {
  }

  /** The character after "/ct/v1/get-" tells the two endpoints apart. */
  lemma PathKindMarker(ep: Endpoint)
    ensures |Path(ep)| > 11
    ensures Path(ep)[11] == (if ep.GetSth? then 's' else 'e')
  {
    match ep
    case GetSth =>
      assert "/ct/v1/get-sth"[11] == 's';
    case GetEntries(s, e) =>
      var q := "/ct/v1/get-entries?start=";
      assert q[11] == 'e';
      CharAfterPrefix(q, IntToString(s) + ("&end=" + IntToString(e)), 11);
  }

  lemma CancelPrefix(p: string, x: string, y: string)
    requires p + x == p + y
    ensures x == y
  {
    assert x == (p + x)[|p|..];
    assert y == (p + y)[|p|..];
  }

  /** Two range queries with the same path ask for the same range. */
  lemma EntriesPathInjective(s1: int, e1: int, s2: int, e2: int)
    requires Path(GetEntries(s1, e1)) == Path(GetEntries(s2, e2))
    ensures s1 == s2 && e1 == e2
  {
    var a1, a2 := IntToString(s1), IntToString(s2);
    var b1, b2 := "&end=" + IntToString(e1), "&end=" + IntToString(e2);
    CancelPrefix("/ct/v1/get-entries?start=", a1 + b1, a2 + b2);
    NoAmpersand(s1);
    NoAmpersand(s2);
    SplitAtFirst(a1, b1, a2, b2, '&');
    IntToStringInjective(s1, s2);
    CancelPrefix("&end=", IntToString(e1), IntToString(e2));
    IntToStringInjective(e1, e2);
  }

  /** Distinct endpoints have distinct URLs, so a network answering by URL
      can equally be read as answering by endpoint. */
  lemma UrlInjective(base: string, e1: Endpoint, e2: Endpoint)
    requires Url(base, e1) == Url(base, e2)
    ensures e1 == e2
  {
    CancelPrefix(base, Path(e1), Path(e2));
    PathKindMarker(e1);
    PathKindMarker(e2);
    if e1.GetEntries? {
      assert e2.GetEntries?;
      EntriesPathInjective(e1.start, e1.end, e2.start, e2.end);
    }
  }

  // ---------------------------------------------------------------------
  // Normalized names (normalize)
  // ---------------------------------------------------------------------

  /** The base name of a shard archive with its final ".json.gz" replaced by ".mtbl". */
  function NormalizedName(name: string): string
  {
    if EndsWith(name, ".json.gz") then name[..|name| - 8] + ".mtbl" else name
  }

  /** A compressed shard's destination keeps its stem and ends in ".mtbl";
      two compressed shards never share a destination. */
  lemma NormalizedNameOfArchive(a: string, b: string)
    requires EndsWith(a, ".json.gz") && EndsWith(b, ".json.gz")
    ensures EndsWith(NormalizedName(a), ".mtbl")
    ensures NormalizedName(a) == a[..|a| - 8] + ".mtbl"
    ensures NormalizedName(a) == NormalizedName(b) ==> a == b
  {
    var na := NormalizedName(a);
    assert na[|na| - 5..] == ".mtbl";
    if na == NormalizedName(b) {
      var sa, sb := a[..|a| - 8], b[..|b| - 8];
      assert |sa| == |sb|;
      assert sa == na[..|sa|] == sb;
      assert a == sa + ".json.gz" && b == sb + ".json.gz";
    }
  }

  /** The glob `*_data_*.json.gz`: ".json.gz" at the end, "_data_" in the
      part before it, and (as for every `*` at the start of a Ruby glob) no
      leading dot. */
  predicate IsShardArchive(name: string)
  {
    EndsWith(name, ".json.gz")
    && Contains(name[..|name| - 8], "_data_")
    && !(|name| > 0 && name[0] == '.')
  }

  /** When the compressor adds ".gz", a sealed shard is picked up by
      `normalize` and becomes `<log>_data_<start>.mtbl`. */
  lemma SealedShardIsNormalized(log: string, start: int)
    requires log == [] || log[0] != '.'
    ensures IsShardArchive(DataFileName(log, start) + ".gz")
    ensures NormalizedName(DataFileName(log, start) + ".gz") == log + "_data_" + IntToString(start) + ".mtbl"
  {
    var stem := log + "_data_" + IntToString(start);
    var gz := DataFileName(log, start) + ".gz";
    assert gz == stem + ".json.gz";
    assert gz[..|gz| - 8] == stem;
    assert OccursAt(stem, "_data_", |log|);
    assert gz[0] == (if log == [] then '_' else log[0]);
  }
}
