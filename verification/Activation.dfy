/** Connector activation: the token file, the restart that must follow a write, and the memory of a failed restart. */
module Activation {
  import opened Text
  import opened Models

  /** How reading the file ends. Only operating-system errors are taken for an empty file. */
  datatype Reading = ReadOk | OsError | OtherError

  /** How writing ends. The file is opened for truncation first, so a torn write leaves a prefix of the token. */
  datatype Writing = WriteOk | WriteRefused | WriteTorn(kept: nat)

  /** How finding and restarting the connector ends. A lost reply means it restarted all the same. */
  datatype Restarting = Restarted | RestartLost | RestartRefused

  datatype Luck = Luck(reading: Reading, writing: Writing, restarting: Restarting)

  /**
   * The token file (a missing one reads as empty), whether this executor wrote to it since the connector last
   * restarted, and the executor's `_pending_token`.
   */
  datatype Site = Site(file: string, unserved: bool, pending: Option<string>)

  function Prefix(token: string, kept: nat): string {
    if kept <= |token| then token[..kept] else token
  }

  /** What the executor takes the current token to be. */
  function Found(s: Site, luck: Luck): string {
    if luck.reading.ReadOk? then Strip(s.file) else ""
  }

  /** Nothing is attempted: the file could not be judged, or it holds this token and no restart is owed for it. */
  predicate Skips(s: Site, token: string, luck: Luck) {
    luck.reading.OtherError? || (Found(s, luck) == token && s.pending != Some(token))
  }

  function RestartFrom(s: Site, token: string, restarting: Restarting): Site {
    Site(s.file, s.unserved && restarting.RestartRefused?, if restarting.Restarted? then None else Some(token))
  }

  /** One activation. */
  function Activated(s: Site, token: string, luck: Luck): Site {
    if Skips(s, token, luck) then s
    else if Found(s, luck) == token then RestartFrom(s, token, luck.restarting)
    else
      match luck.writing
      case WriteRefused => s
      case WriteTorn(kept) => s.(file := Prefix(token, kept), unserved := true)
      case WriteOk => RestartFrom(s.(file := token, unserved := true), token, luck.restarting)
  }

  datatype Answer = Returned | MissingCapability

  class ConnectorActivation {
    const capable: bool
    var file: string
    var unserved: bool
    var pendingToken: Option<string>

    constructor (capable: bool, file: string)
      ensures this.capable == capable && Now() == Site(file, false, None)
    {
      this.capable, this.file, unserved, pendingToken := capable, file, false, None;
    }

    ghost function Now(): Site
      reads this
    {
      Site(file, unserved, pendingToken)
    }

    method Activate(token: string, dryRun: bool, luck: Luck) returns (answer: Answer)
      modifies this
      ensures answer == if !dryRun && !capable then MissingCapability else Returned
      ensures Now() == if dryRun || !capable then old(Now()) else Activated(old(Now()), token, luck)
    {
      if dryRun {
        return Returned;
      }
      if !capable {
        return MissingCapability;
      }
      answer := Returned;
      if luck.reading.OtherError? {
        return;
      }
      var current := if luck.reading.ReadOk? then Strip(file) else "";
      if current == token && pendingToken != Some(token) {
        return;
      }
      if current != token {
        var written := WriteToken(token, luck.writing);
        if !written {
          return;
        }
      }
      var restarted := RestartConnector(luck.restarting);
      pendingToken := if restarted then None else Some(token);
    }

    method WriteToken(token: string, writing: Writing) returns (ok: bool)
      modifies this`file, this`unserved
      ensures ok == writing.WriteOk?
      ensures writing.WriteRefused? ==> file == old(file) && unserved == old(unserved)
      ensures !writing.WriteRefused? ==>
                unserved && file == if writing.WriteOk? then token else Prefix(token, writing.kept)
    {
      ok := writing.WriteOk?;
      if !writing.WriteRefused? {
        file := if writing.WriteOk? then token else Prefix(token, writing.kept);
        unserved := true;
      }
    }

    method RestartConnector(restarting: Restarting) returns (ok: bool)
      modifies this`unserved
      ensures ok == restarting.Restarted?
      ensures unserved == (old(unserved) && restarting.RestartRefused?)
    {
      ok := restarting.Restarted?;
      if !restarting.RestartRefused? {
        unserved := false;
      }
    }
  }

  // ---------------------------------------------------------------- when everything else works

  /**
   * An activation whose write and restart work: an unreadable file, or one that reads as another token, is written
   * and the connector restarted; one that reads as the token is left, and the connector restarted exactly if that is
   * owed.
   */
  lemma WorkingActivation(s: Site, token: string, luck: Luck)
    requires !luck.reading.OtherError? && luck.writing.WriteOk? && luck.restarting.Restarted? && token != ""
    ensures luck.reading.OsError? || Strip(s.file) != token ==> Activated(s, token, luck) == Site(token, false, None)
    ensures luck.reading.ReadOk? && Strip(s.file) == token && s.pending == Some(token) ==>
              Activated(s, token, luck) == Site(s.file, false, None)
    ensures luck.reading.ReadOk? && Strip(s.file) == token && s.pending != Some(token) ==>
              Activated(s, token, luck) == s
  {
  }

  /** If the restart fails the token is remembered; if the write fails none is attempted, and nothing new remembered. */
  lemma FailingActivation(s: Site, token: string, luck: Luck)
    requires !luck.reading.OtherError? && token != "" && (luck.reading.OsError? || Strip(s.file) != token)
    ensures luck.writing.WriteOk? && luck.restarting.RestartRefused? ==>
              Activated(s, token, luck) == Site(token, true, Some(token))
    ensures luck.writing.WriteOk? && luck.restarting.RestartLost? ==>
              Activated(s, token, luck) == Site(token, false, Some(token))
    ensures luck.writing.WriteRefused? ==> Activated(s, token, luck) == s
    ensures luck.writing.WriteTorn? ==>
              var s' := Activated(s, token, luck); s'.file <= token && s'.unserved && s'.pending == s.pending
  {
  }

  /** Where a restart is owed for the token in the file, nothing is written; a failed restart stays owed. */
  lemma OwedActivation(s: Site, token: string, luck: Luck)
    requires luck.reading.ReadOk? && Strip(s.file) == token && s.pending == Some(token)
    ensures luck.restarting.RestartRefused? ==> Activated(s, token, luck) == s
    ensures luck.restarting.RestartLost? ==> Activated(s, token, luck) == Site(s.file, false, Some(token))
    ensures luck.restarting.Restarted? ==> Activated(s, token, luck) == Site(s.file, false, None)
  {
  }

  /** A file that cannot be judged is left, and the connector too. */
  lemma UnjudgedActivation(s: Site, token: string, luck: Luck)
    requires luck.reading.OtherError?
    ensures Activated(s, token, luck) == s
  {
  }

  // ---------------------------------------------------------------- owed restarts

  /** A restart is owed, and the next activation of the very token in the file would not notice. */
  predicate Forgotten(s: Site) {
    s.unserved && s.pending != Some(Strip(s.file))
  }

  datatype Activity = Activity(token: string, luck: Luck)

  /** The activation leaves a torn file, or a token that reads back as another one and whose restart is refused. */
  predicate Loses(s: Site, a: Activity) {
    && !Skips(s, a.token, a.luck) && Found(s, a.luck) != a.token
    && (|| (a.luck.writing.WriteTorn? && s.pending != Some(Strip(Prefix(a.token, a.luck.writing.kept))))
        || (a.luck.writing.WriteOk? && a.luck.restarting.RestartRefused? && !Trimmed(a.token)))
  }

  /** The activation restarts the connector, or leaves a token in the file that its next activation will restart for. */
  predicate Heals(s: Site, a: Activity) {
    && !Skips(s, a.token, a.luck)
    && if Found(s, a.luck) == a.token then !a.luck.restarting.RestartRefused?
       else || (a.luck.writing.WriteOk? && (!a.luck.restarting.RestartRefused? || Trimmed(a.token)))
            || (a.luck.writing.WriteTorn? && s.pending == Some(Strip(Prefix(a.token, a.luck.writing.kept))))
  }

  /** One activation: exactly when an owed restart is forgotten after it. */
  lemma ForgettingExactly(s: Site, a: Activity)
    ensures Forgotten(Activated(s, a.token, a.luck)) <==> Loses(s, a) || (Forgotten(s) && !Heals(s, a))
  {
    StripFixesTrimmed(a.token);
  }

  /**
   * A forgotten restart means that an activation of the file's token would return early; a remembered one never
   * does.
   */
  lemma EarlyReturnExactly(s: Site, luck: Luck)
    requires s.unserved && luck.reading.ReadOk?
    ensures Skips(s, Strip(s.file), luck) <==> Forgotten(s)
    ensures !Forgotten(s) ==>
              Activated(s, Strip(s.file), luck) == RestartFrom(s, Strip(s.file), luck.restarting)
  {
  }

  function SiteAfter(s: Site, run: seq<Activity>): Site {
    if run == [] then s else Activated(SiteAfter(s, run[..|run| - 1]), run[|run| - 1].token, run[|run| - 1].luck)
  }

  /** Activation k lost a restart that none since has made up for. */
  ghost predicate LostAt(s: Site, run: seq<Activity>, k: nat) {
    && k < |run| && Loses(SiteAfter(s, run[..k]), run[k])
    && forall j :: k < j < |run| ==> !Heals(SiteAfter(s, run[..j]), run[j])
  }

  lemma LostOneEarlier(s: Site, run: seq<Activity>, k: nat)
    requires k + 1 < |run|
    ensures var init, last := run[..|run| - 1], run[|run| - 1];
            LostAt(s, run, k) <==> LostAt(s, init, k) && !Heals(SiteAfter(s, init), last)
  {
    var init := run[..|run| - 1];
    assert forall j :: 0 <= j < |init| ==> init[..j] == run[..j] && init[j] == run[j];
    if LostAt(s, init, k) && !Heals(SiteAfter(s, init), run[|run| - 1]) {
      forall j | k < j < |run| ensures !Heals(SiteAfter(s, run[..j]), run[j]) {
        if j < |init| { assert !Heals(SiteAfter(s, init[..j]), init[j]); }
      }
    }
    if LostAt(s, run, k) {
      forall j | k < j < |init| ensures !Heals(SiteAfter(s, init[..j]), init[j]) {
        assert !Heals(SiteAfter(s, run[..j]), run[j]);
      }
    }
  }

  /**
   * Lost restarts over every run of activations, whatever their tokens and failures: one is forgotten in the end if and
   * only if some activation lost it and none since has healed it.
   */
  lemma {:induction false} LostExactly(s: Site, run: seq<Activity>)
    requires !Forgotten(s)
    ensures Forgotten(SiteAfter(s, run)) <==> exists k: nat :: LostAt(s, run, k)
  {
    if run != [] {
      var init, a, last := run[..|run| - 1], run[|run| - 1], |run| - 1;
      LostExactly(s, init);
      ForgettingExactly(SiteAfter(s, init), a);
      assert LostAt(s, run, last) <==> Loses(SiteAfter(s, init), a);
      forall k: nat | k < last ensures LostAt(s, run, k) <==> LostAt(s, init, k) && !Heals(SiteAfter(s, init), a) {
        LostOneEarlier(s, run, k);
      }
    }
  }

  /** Trimmed tokens, and writes that either happen or do not. */
  predicate Atomic(run: seq<Activity>) {
    forall a :: a in run ==> Trimmed(a.token) && !a.luck.writing.WriteTorn?
  }

  lemma NothingForgotten(s: Site, run: seq<Activity>)
    requires !Forgotten(s) && Atomic(run)
    ensures !Forgotten(SiteAfter(s, run))
  {
    LostExactly(s, run);
    forall k: nat ensures !LostAt(s, run, k) {
      if k < |run| { assert run[k] in run; }
    }
  }

  /**
   * Over any sequence of activations with arbitrary read, write, lookup and restart failures, if writes are
   * atomic and tokens trimmed: whenever an activation returns without attempting anything although the file
   * reads as its token, no restart is owed; and any activation of a token whose restart is owed attempts
   * it, so that a restart that then works leaves nothing owed.
   */
  lemma OwedRestartsAreRetried(file: string, run: seq<Activity>, luck: Luck)
    requires Atomic(run) && luck.reading.ReadOk?
    ensures var s := SiteAfter(Site(file, false, None), run);
            && (Skips(s, Strip(s.file), luck) ==> !s.unserved)
            && (s.unserved ==> s.pending == Some(Strip(s.file)))
            && (s.unserved && !luck.restarting.RestartRefused? ==> !Activated(s, Strip(s.file), luck).unserved)
  {
    var s := SiteAfter(Site(file, false, None), run);
    NothingForgotten(Site(file, false, None), run);
    if s.unserved { EarlyReturnExactly(s, luck); }
  }

  /**
   * Without atomic writes this fails: after a write that errs having stored the whole token, no activation of
   * that token restarts the connector as long as the file can be read.
   */
  lemma TornWriteIsForgotten(token: string, file: string, rest: seq<Activity>)
    requires token != "" && Trimmed(token) && Strip(file) != token
    requires forall a :: a in rest ==> a.token == token && a.luck.reading.ReadOk?
    ensures var s := SiteAfter(Activated(Site(file, false, None), token, Luck(ReadOk, WriteTorn(|token|), Restarted)),
            rest);
            s.file == token && s.unserved
  {
    var s := Activated(Site(file, false, None), token, Luck(ReadOk, WriteTorn(|token|), Restarted));
    StripFixesTrimmed(token);
    StaysForgotten(s, token, rest);
  }

  lemma {:induction false} StaysForgotten(s: Site, token: string, rest: seq<Activity>)
    requires Strip(s.file) == token && s.pending != Some(token)
    requires forall a :: a in rest ==> a.token == token && a.luck.reading.ReadOk?
    ensures SiteAfter(s, rest) == s
  {
    if rest != [] {
      assert rest[|rest| - 1] in rest;
      StaysForgotten(s, token, rest[..|rest| - 1]);
    }
  }

  /** A lost restart is the stored token's loss: activating an untrimmed token again writes it again, and restarts. */
  lemma UntrimmedIsRewritten(s: Site, token: string, luck: Luck)
    requires s.file == token && !Trimmed(token)
    requires luck.reading.ReadOk? && luck.writing.WriteOk? && !luck.restarting.RestartRefused?
    ensures !Skips(s, token, luck) && !Activated(s, token, luck).unserved
  {
    StripFixesTrimmed(token);
  }

  /** After an activation that went through, repeating it is quiet exactly when the token is trimmed. */
  lemma RepeatIsQuiet(s: Site, token: string, luck: Luck)
    requires Found(s, luck) != token && luck.writing.WriteOk? && luck.restarting.Restarted? && luck.reading.ReadOk?
    ensures var s' := Activated(s, token, luck);
            && s' == Site(token, false, None)
            && (Skips(s', token, luck) <==> Trimmed(token))
  {
    StripFixesTrimmed(token);
  }
}
