/** From a running server over a crash to the restarted one: the log writer's crash recovery and the
    recovery of contents put together. */
module Restart {
  import opened Resp
  import opened Frames
  import opened Sharding
  import opened Recovery
  import A = AofWriter

  /** Any prefix of a run's log is the log of a prefix of the run. */
  lemma {:induction false} LogPrefix(a: Db, hs: seq<Happening>, j: nat) returns (n: nat)
    requires DbValid(a) && j <= |LogOf(a, hs)|
    ensures n <= |hs| && LogOf(a, hs[..n]) == LogOf(a, hs)[..j]
  {
    hide DbValid, Logs, RunOf;
    if j == |LogOf(a, hs)| {
      n := |hs|;
      assert hs[..n] == hs;
    } else {
      var m := |hs| - 1;
      n := LogPrefix(a, hs[..m], j);
      assert hs[..m][..n] == hs[..n];
    }
  }

  lemma RunPrefix(a: Db, hs: seq<Happening>, n: nat)
    requires DbValid(a) && NeverTtls(a, hs) && RunFits(a, hs) && n <= |hs|
    ensures NeverTtls(a, hs[..n]) && RunFits(a, hs[..n])
  {
    hide DbValid, RunOf, DbNoTtls, HappeningFits;
    forall i | 0 <= i < n ensures HappeningFits(RunOf(a, hs[..n][..i]), hs[..n][i]) { assert hs[..n][..i] == hs[..i]; }
    forall i | 0 <= i <= n ensures DbNoTtls(RunOf(a, hs[..n][..i])) { assert hs[..n][..i] == hs[..i]; }
  }

  lemma {:induction false} LogAppend(a: Db, hs: seq<Happening>, more: seq<Happening>)
    requires DbValid(a)
    ensures RunOf(a, hs + more) == RunOf(RunOf(a, hs), more)
    ensures LogOf(a, hs + more) == LogOf(a, hs) + LogOf(RunOf(a, hs), more)
  {
    hide DbValid, Logs, Happen;
    if more == [] {
      assert hs + more == hs && LogOf(a, hs) + [] == LogOf(a, hs);
    } else {
      var m := |more| - 1;
      assert (hs + more)[..|hs + more| - 1] == hs + more[..m];
      LogAppend(a, hs, more[..m]);
    }
  }

  /** Crash and restart. A server runs commands one at a time without memory pressure, and no key ever has a TTL.
      Its writer was opened on the log of the commands `old_`, of which `synced` bytes are safe; these and
      the commands the writer accepted are the first of those the run logged. Whatever prefix of the file
      no shorter than the last sync survives a crash, the restarted server replays it without an error and
      holds the contents the run had at some point, at or after every command whose append was
      acknowledged; and the file it keeps is the log of what it replayed. */
  lemma RestartedContents(
      p: Parser, policy: A.FsyncPolicy, old_: seq<Command>, synced: nat, a: Db, b: Db, hs: seq<Happening>,
      events: seq<A.Event>, k: nat, rs: seq<Happening>)
      returns (n: nat)
    requires TwinDb(a, b) && NeverTtls(a, hs) && RunFits(a, hs) && AllHealthy(rs) && synced <= |EncodeLog(old_)|
    requires var w := A.Run(A.Open(policy, EncodeLog(old_), synced), events);
             && old_ + w.accepted <= LogOf(a, hs) && AllLoggable(p, old_ + w.accepted) && w.synced <= k <= |w.file|
             && CommandsOf(rs) == ReadFrames(p, w.file[..k]).commands
    ensures n <= |hs| && TwinDb(RunOf(a, hs[..n]), RunOf(b, rs)) && NoErrors(b, rs)
    ensures CommandsOf(rs) == LogOf(b, rs) == LogOf(a, hs[..n])
    ensures var w := A.Run(A.Open(policy, EncodeLog(old_), synced), events);
            var f := ReadFrames(p, w.file[..k]);
            && !f.ending.Corrupt? && w.file[..f.consumed] == EncodeLog(CommandsOf(rs))
            && (synced == |EncodeLog(old_)| ==> old_ <= CommandsOf(rs))
            && forall i :: 0 <= i < |w.tickets| && w.tickets[i] == A.Durable ==> |old_| + i < |CommandsOf(rs)|
  {
    hide TwinDb, DbValid, NeverTtls, RunFits, NoErrors, RunOf, LogOf, ReadFrames, EncodeLog, A.Run;
    TwinValid(a, b);
    var w := A.Run(A.Open(policy, EncodeLog(old_), synced), events);
    var j := A.CrashRecovery(p, policy, old_, synced, events, k);
    n := LogPrefix(a, hs, j);
    assert LogOf(a, hs)[..j] == (old_ + w.accepted)[..j];
    RunPrefix(a, hs, n);
    LogRebuilds(a, b, hs[..n], rs);
    KeptFile(policy, old_, synced, events, j, ReadFrames(p, w.file[..k]).consumed);
  }

  /** A prefix of the file as long as the log of some first commands is that log. */
  lemma KeptFile(policy: A.FsyncPolicy, old_: seq<Command>, synced: nat, events: seq<A.Event>, j: nat, n: nat)
    requires synced <= |EncodeLog(old_)|
    requires var w := A.Run(A.Open(policy, EncodeLog(old_), synced), events);
             j <= |old_ + w.accepted| && n == |EncodeLog((old_ + w.accepted)[..j])| && n <= |w.file|
    ensures var w := A.Run(A.Open(policy, EncodeLog(old_), synced), events);
            w.file[..n] == EncodeLog((old_ + w.accepted)[..j])
  {
    hide EncodeLog, A.Run;
    A.RunInv(policy, EncodeLog(old_), synced, events);
    var w := A.Run(A.Open(policy, EncodeLog(old_), synced), events);
    A.FileIsLogPrefix(w, old_);
    var all, popped := old_ + w.accepted, old_ + w.accepted[..w.taken];
    assert all[..|popped|] == popped && all == all[..|popped|] + all[|popped|..] && all == all[..j] + all[j..];
    EncodeLogAppend(all[..|popped|], all[|popped|..]);
    EncodeLogAppend(all[..j], all[j..]);
    assert w.file <= EncodeLog(all);
  }

  // ---------------------------------------------------------------- any number of crashes

  /** One life of the server after replaying the log it found: what it then ran, how its writer fared until
      the crash, how much of the file survived, and the replay at the next start. */
  datatype Life = Life(
    policy: A.FsyncPolicy, synced: nat, more: seq<Happening>, events: seq<A.Event>, k: nat, replay: seq<Happening>)

  function WriterOf(replayed: seq<Happening>, l: Life): A.Writer {
    A.Run(A.Open(l.policy, EncodeLog(CommandsOf(replayed)), l.synced), l.events)
  }

  /** A life from the empty database `blank` that started with the replay `replayed`. */
  ghost predicate Lived(p: Parser, blank: Db, replayed: seq<Happening>, l: Life)
    requires DbValid(blank)
  {
    var w := WriterOf(replayed, l);
    && NeverTtls(blank, replayed + l.more) && RunFits(blank, replayed + l.more)
    && l.synced <= |EncodeLog(CommandsOf(replayed))|
    && w.accepted <= LogOf(RunOf(blank, replayed), l.more) && AllLoggable(p, CommandsOf(replayed) + w.accepted)
    && w.synced <= l.k <= |w.file|
    && CommandsOf(l.replay) == ReadFrames(p, w.file[..l.k]).commands && AllHealthy(l.replay)
  }

  /** The next start fails on nothing and finds the contents the life had at some point, at or after every
      command acknowledged in it, and after everything replayed at its start if that was safe on disk;
      everything it replayed stays logged. */
  ghost predicate Survived(blank: Db, replayed: seq<Happening>, l: Life)
    requires DbValid(blank)
  {
    var run, w, old_, kept := replayed + l.more, WriterOf(replayed, l), CommandsOf(replayed), CommandsOf(l.replay);
    && NoErrors(blank, l.replay) && LogOf(blank, l.replay) == kept
    && (exists n :: 0 <= n <= |run| && LogOf(blank, run[..n]) == kept
                    && TwinDb(RunOf(blank, run[..n]), RunOf(blank, l.replay)))
    && (l.synced == |EncodeLog(old_)| ==> old_ <= kept)
    && (forall i :: 0 <= i < |w.tickets| && w.tickets[i] == A.Durable ==> |old_| + i < |kept|)
  }

  ghost predicate AllLived(p: Parser, blank: Db, replayed: seq<Happening>, lives: seq<Life>)
    requires DbValid(blank)
    decreases |lives|
  {
    lives == [] || (Lived(p, blank, replayed, lives[0]) && AllLived(p, blank, lives[0].replay, lives[1..]))
  }

  ghost predicate AllSurvived(blank: Db, replayed: seq<Happening>, lives: seq<Life>)
    requires DbValid(blank)
    decreases |lives|
  {
    lives == [] || (Survived(blank, replayed, lives[0]) && AllSurvived(blank, lives[0].replay, lives[1..]))
  }

  lemma SurvivedLife(p: Parser, blank: Db, replayed: seq<Happening>, l: Life)
    requires TwinDb(blank, blank) && LogOf(blank, replayed) == CommandsOf(replayed) && Lived(p, blank, replayed, l)
    ensures Survived(blank, replayed, l)
  {
    hide TwinDb, DbValid, NeverTtls, RunFits, NoErrors, RunOf, LogOf, CommandsOf, ReadFrames, EncodeLog, A.Run;
    TwinValid(blank, blank);
    var old_, w := CommandsOf(replayed), WriterOf(replayed, l);
    LogAppend(blank, replayed, l.more);
    assert old_ + w.accepted <= LogOf(blank, replayed + l.more);
    var n := RestartedContents(
      p, l.policy, old_, l.synced, blank, blank, replayed + l.more, l.events, l.k, l.replay);
  }

  /** Over any number of crashes: whatever each life did and whatever each crash left, every restart is clean
      and loses nothing that was acknowledged in the life before it. */
  lemma {:induction false} ManyRestarts(p: Parser, blank: Db, replayed: seq<Happening>, lives: seq<Life>)
    requires TwinDb(blank, blank) && LogOf(blank, replayed) == CommandsOf(replayed)
    requires AllLived(p, blank, replayed, lives)
    ensures AllSurvived(blank, replayed, lives)
    decreases |lives|
  {
    hide TwinDb, DbValid, Lived, LogOf, CommandsOf, RunOf, NoErrors;
    TwinValid(blank, blank);
    if lives != [] {
      SurvivedLife(p, blank, replayed, lives[0]);
      ManyRestarts(p, blank, lives[0].replay, lives[1..]);
    }
  }
}
