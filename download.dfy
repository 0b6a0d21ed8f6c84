/** `download`: for every configured CT log, trim the trailing slashes of
    its base in place, derive its log name, and hand both to a `ct_sync`
    thread. The configuration list is an array whose strings the loop
    rewrites; the threads are represented by the jobs they are started with. */
module CtDownload {
  import opened CtNames

  /** The arguments one sync thread is started with: the log name and the
      base URL, the trimmed base behind "https://". */
  datatype Job = Job(logName: string, logUrl: string)

  /** The job for a configured base, once its trailing slashes are gone. */
  function JobFor(configured: string): (j: Job)
    ensures j.logName == LogName(configured)
    ensures '/' !in j.logName
    ensures j.logUrl == "https://" + TrimTrailingSlashes(configured)
  {
    LogNameShape(configured);
    var trimmed := TrimTrailingSlashes(configured);
    Job(ReplaceSlashes(trimmed), "https://" + trimmed)
  }

  /** Reference definition: one job per configured log, in order. */
  function Jobs(ctLogs: seq<string>): (js: seq<Job>)
    ensures |js| == |ctLogs|
    ensures forall i :: 0 <= i < |js| ==> '/' !in js[i].logName
    ensures forall i :: 0 <= i < |js| ==> |js[i].logUrl| >= 8 && js[i].logUrl[..8] == "https://"
  {
    seq(|ctLogs|, i requires 0 <= i < |ctLogs| => JobFor(ctLogs[i]))
  }

  /** The configuration once every entry has been trimmed in place. */
  function Trimmed(ctLogs: seq<string>): (ts: seq<string>)
    ensures |ts| == |ctLogs|
    ensures forall i :: 0 <= i < |ts| ==> ts[i] == [] || ts[i][|ts[i]| - 1] != '/'
    ensures forall i :: 0 <= i < |ts| ==> |ts[i]| <= |ctLogs[i]| && ts[i] == ctLogs[i][..|ts[i]|]
  {
    seq(|ctLogs|, i requires 0 <= i < |ctLogs| => TrimTrailingSlashes(ctLogs[i]))
  }

  /** The loop of `download`, up to the start of the threads. */
  method Download(ctLogs: array<string>) returns (jobs: seq<Job>)
    modifies ctLogs
    ensures ctLogs[..] == Trimmed(old(ctLogs[..]))
    ensures jobs == Jobs(old(ctLogs[..]))
  {
    ghost var configured := ctLogs[..];
    jobs := [];
    var i := 0;
    while i < ctLogs.Length
      invariant 0 <= i <= ctLogs.Length
      invariant jobs == Jobs(configured[..i])
      invariant ctLogs[..] == Trimmed(configured[..i]) + configured[i..]
    {
      ghost var before := ctLogs[..];
      ctLogs[i] := TrimTrailingSlashes(ctLogs[i]);
      var logName := ReplaceSlashes(ctLogs[i]);
      jobs := jobs + [Job(logName, "https://" + ctLogs[i])];
      TrimOneMore(configured, i);
      assert ctLogs[..] == before[i := ctLogs[i]];
      i := i + 1;
    }
    assert configured[..i] == configured;
  }

  lemma TrimOneMore(configured: seq<string>, i: nat)
    requires i < |configured|
    ensures Jobs(configured[..i + 1]) == Jobs(configured[..i]) + [JobFor(configured[i])]
    ensures (Trimmed(configured[..i]) + configured[i..])[i := TrimTrailingSlashes(configured[i])]
      == Trimmed(configured[..i + 1]) + configured[i + 1..]
  {
  }

  /** A second `download` in the same process sees the trimmed configuration
      and starts exactly the same threads, and leaves it as it is. */
  lemma DownloadTwice(ctLogs: seq<string>)
    ensures Trimmed(Trimmed(ctLogs)) == Trimmed(ctLogs)
    ensures Jobs(Trimmed(ctLogs)) == Jobs(ctLogs)
  {
    var t := Trimmed(ctLogs);
    forall i | 0 <= i < |ctLogs|
      ensures Trimmed(t)[i] == t[i] && JobFor(t[i]) == JobFor(ctLogs[i])
    {
      TrimTrailingSlashesIdempotent(ctLogs[i]);
    }
  }
}
