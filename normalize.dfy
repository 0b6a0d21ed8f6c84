/** `normalize`: every compressed shard of the storage directory whose
    `.mtbl` counterpart is not yet in the normalized directory is converted
    (decompressed and piped into inetdata-ct2mtbl, which writes a temporary
    file) and then renamed to its final name. The directory listing is
    given in the order the sorted glob visits it, the normalized directory is
    a set of file names, and every conversion is recorded in order. */
module CtNormalize {
  import opened Util
  import opened CtNames

  /** One conversion: the pipeline from `source` into the temporary file,
      then the rename of the temporary file to `dest`. */
  datatype Conversion = Conversion(source: string, temp: string, dest: string)

  function ConversionOf(src: string): Conversion
  {
    Conversion(src, NormalizedName(src) + ".tmp", NormalizedName(src))
  }

  /** Reference definition: the sources a run converts, in order, when the
      listing is `listing` and the normalized directory holds `have`. A
      source is skipped when its destination exists, which includes a
      destination written earlier in the same run. */
  function Plan(listing: seq<string>, have: set<string>): seq<string>
    decreases |listing|
  {
    if listing == [] then []
    else
      var src := listing[0];
      if !IsShardArchive(src) || NormalizedName(src) in have then Plan(listing[1..], have)
      else [src] + Plan(listing[1..], have + {NormalizedName(src)})
  }

  function Dests(srcs: seq<string>): set<string>
  {
    set i | 0 <= i < |srcs| :: NormalizedName(srcs[i])
  }

  /** Only compressed shards of the listing are converted, each only when its
      destination did not exist, and no destination is written twice. */
  lemma {:induction false} PlanSound(listing: seq<string>, have: set<string>)
    ensures var p := Plan(listing, have);
      && (forall s :: s in p ==> s in listing && IsShardArchive(s) && NormalizedName(s) !in have)
      && (forall i, j :: 0 <= i < j < |p| ==> NormalizedName(p[i]) != NormalizedName(p[j]))
    decreases |listing|
  {
    if listing != [] {
      var src, rest := listing[0], listing[1..];
      var dst := NormalizedName(src);
      assert forall s :: s in rest ==> s in listing;
      if !IsShardArchive(src) || dst in have {
        PlanSound(rest, have);
      } else {
        var q := Plan(rest, have + {dst});
        PlanSound(rest, have + {dst});
        assert Plan(listing, have) == [src] + q;
        forall i, j | 0 <= i < j < |[src] + q|
          ensures NormalizedName(([src] + q)[i]) != NormalizedName(([src] + q)[j])
        {
          assert ([src] + q)[j] == q[j - 1];
          if i > 0 {
            assert ([src] + q)[i] == q[i - 1];
          } else {
            assert q[j - 1] in q;
          }
        }
      }
    }
  }

  /** After a run, every compressed shard of the listing has its destination. */
  lemma {:induction false} PlanComplete(listing: seq<string>, have: set<string>)
    ensures forall i :: 0 <= i < |listing| && IsShardArchive(listing[i]) ==>
      NormalizedName(listing[i]) in have + Dests(Plan(listing, have))
    decreases |listing|
  {
    if listing != [] {
      var src := listing[0];
      var rest := listing[1..];
      var p := Plan(listing, have);
      if !IsShardArchive(src) || NormalizedName(src) in have {
        PlanComplete(rest, have);
      } else {
        var h := have + {NormalizedName(src)};
        var q := Plan(rest, h);
        PlanComplete(rest, h);
        assert p == [src] + q;
        assert NormalizedName(p[0]) in Dests(p);
        forall i | 0 <= i < |q|
          ensures NormalizedName(q[i]) in Dests(p)
        {
          assert p[i + 1] == q[i];
        }
      }
      forall i | 0 <= i < |listing| && IsShardArchive(listing[i])
        ensures NormalizedName(listing[i]) in have + Dests(p)
      {
        if i > 0 {
          assert listing[i] == rest[i - 1];
        }
      }
    }
  }

  /** A second run right after the first converts nothing. */
  lemma {:induction false} NormalizeIdempotent(listing: seq<string>, have: set<string>)
    ensures Plan(listing, have + Dests(Plan(listing, have))) == []
  {
    PlanComplete(listing, have);
    NothingLeft(listing, have + Dests(Plan(listing, have)));
  }

  lemma {:induction false} NothingLeft(listing: seq<string>, have: set<string>)
    requires forall i :: 0 <= i < |listing| && IsShardArchive(listing[i]) ==> NormalizedName(listing[i]) in have
    ensures Plan(listing, have) == []
    decreases |listing|
  {
    if listing != [] {
      assert forall i :: 1 <= i < |listing| ==> listing[i] == listing[1..][i - 1];
      NothingLeft(listing[1..], have);
    }
  }

  /** The normalized directory and the conversions run so far. */
  class NormalizedDir {
    var files: set<string>
    var conversions: seq<Conversion>

    constructor (existing: set<string>)
      ensures files == existing && conversions == []
    {
      files := existing;
      conversions := [];
    }

    /** `normalize` over the storage directory listing `listing`.
        Without the inetdata-parsers tools it changes nothing and answers false. */
    method Normalize(listing: seq<string>, parsersAvailable: bool) returns (ran: bool)
      modifies this
      ensures ran == parsersAvailable
      ensures !ran ==> files == old(files) && conversions == old(conversions)
      ensures ran ==> var p := Plan(listing, old(files));
        files == old(files) + Dests(p) && conversions == old(conversions) + Converted(p)
    {
      if !parsersAvailable {
        return false;
      }
      ghost var f0, c0 := files, conversions;
      ghost var done: seq<string> := [];
      var i := 0;
      while i < |listing|
        invariant 0 <= i <= |listing|
        invariant done + Plan(listing[i..], files) == Plan(listing, f0)
        invariant files == f0 + Dests(done)
        invariant conversions == c0 + Converted(done)
      {
        var src := listing[i];
        Advance(listing, i, files, done, Plan(listing, f0));
        if IsShardArchive(src) {
          var dst := NormalizedName(src);
          if dst !in files {
            var tmp := dst + ".tmp";
            ConversionsGrow(f0, c0, done, src);
            conversions := conversions + [Conversion(src, tmp, dst)];
            files := files + {dst};
            done := done + [src];
          }
        }
        i := i + 1;
      }
      PlanDone(listing, files, done, Plan(listing, f0));
      return true;
    }
  }

  /** One turn of the loop keeps the split of the plan into the sources
      converted so far and the plan of the rest of the listing. */
  lemma Advance(listing: seq<string>, i: nat, have: set<string>, done: seq<string>, target: seq<string>)
    requires i < |listing|
    requires done + Plan(listing[i..], have) == target
    ensures var src := listing[i];
      var dst := NormalizedName(src);
      if IsShardArchive(src) && dst !in have then done + [src] + Plan(listing[i + 1..], have + {dst}) == target
      else done + Plan(listing[i + 1..], have) == target
  {
    var src := listing[i];
    var dst := NormalizedName(src);
    StepPlan(listing, i, have);
    if IsShardArchive(src) && dst !in have {
      var rest := Plan(listing[i + 1..], have + {dst});
      assert done + ([src] + rest) == done + [src] + rest;
    }
  }

  lemma PlanDone(listing: seq<string>, have: set<string>, done: seq<string>, target: seq<string>)
    requires done + Plan(listing[|listing|..], have) == target
    ensures done == target
  {
    assert listing[|listing|..] == [];
    assert done + [] == done;
  }

  /** The files and the record of conversions after one more conversion. */
  lemma ConversionsGrow(f0: set<string>, c0: seq<Conversion>, done: seq<string>, src: string)
    ensures f0 + Dests(done) + {NormalizedName(src)} == f0 + Dests(done + [src])
    ensures c0 + Converted(done) + [Conversion(src, NormalizedName(src) + ".tmp", NormalizedName(src))]
      == c0 + Converted(done + [src])
  {
    DestsSnoc(done, src);
    ConvertedSnoc(done, src);
  }

  function Converted(srcs: seq<string>): (cs: seq<Conversion>)
    ensures |cs| == |srcs|
    ensures forall i :: 0 <= i < |srcs| ==> cs[i] == ConversionOf(srcs[i])
  {
    seq(|srcs|, i requires 0 <= i < |srcs| => ConversionOf(srcs[i]))
  }

  lemma ConvertedSnoc(srcs: seq<string>, src: string)
    ensures Converted(srcs + [src]) == Converted(srcs) + [ConversionOf(src)]
  {
  }

  lemma DestsSnoc(srcs: seq<string>, src: string)
    ensures Dests(srcs + [src]) == Dests(srcs) + {NormalizedName(src)}
  {
    var s := srcs + [src];
    assert NormalizedName(s[|srcs|]) in Dests(s);
    forall d | d in Dests(srcs)
      ensures d in Dests(s)
    {
      var i :| 0 <= i < |srcs| && d == NormalizedName(srcs[i]);
      assert s[i] == srcs[i];
    }
  }

  /** One step of the loop against the plan. */
  lemma StepPlan(listing: seq<string>, i: nat, have: set<string>)
    requires i < |listing|
    ensures var src := listing[i];
      Plan(listing[i..], have) ==
        if !IsShardArchive(src) || NormalizedName(src) in have then Plan(listing[i + 1..], have)
        else [src] + Plan(listing[i + 1..], have + {NormalizedName(src)})
  {
    assert listing[i..][1..] == listing[i + 1..];
  }
}
