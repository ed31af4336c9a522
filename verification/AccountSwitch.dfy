/**
 `cmd_switch` of `scripts/claude_account.py` from the write on, with `_revert`,
 `sync_active_token` and `_active_token_sync_failed`. Every step that can fail
 does so as the fault record says; copies and writes are atomic.
 */
module AccountSwitch {
  import opened Prelude
  import opened EnvFile

  const TOKEN_ENV_KEY := "CLAUDE_CODE_OAUTH_TOKEN"
  const FORWARD_FLAG_KEY := "PINKY_FORWARD_OAUTH_TOKEN"

  /** How one `sync_active_token` fares: the reserved-slot check, the private
      store, reading `.env`, and the final unlink or atomic write. */
  datatype SyncFaults = SyncFaults(slotBlocked: bool, storeFails: bool, readFails: bool, lastStepFails: bool)

  datatype Restart = NotRequested | Refused | Accepted | Unknown

  datatype Faults = Faults(
    writeFails: bool,
    sync: SyncFaults,
    restoreFails: bool,
    removeFails: bool,
    restart: Restart,
    generationAdvances: bool,
    revertSlotBlocked: bool,
    revertCopyFails: bool,
    revertSync: SyncFaults)

  datatype Exit = Code(code: nat) | Raised

  /** The live token, or None when there is none or it is blank. */
  function LiveToken(env: string): Option<string> {
    var live := ScriptReads(env, TOKEN_ENV_KEY);
    if live == Some("") then None else live
  }

  function SwitchedLines(lines: seq<string>, token: string): seq<string> {
    SetEnv(SetEnv(lines, TOKEN_ENV_KEY, token), FORWARD_FLAG_KEY, "1")
  }

  /** The text the switch writes over `.env`. */
  function SwitchedEnv(env: string, token: string): string {
    FileText(SwitchedLines(SplitLines(env), token))
  }

  /** Both loaders, each splitting the file its own way, read this token and the
      forwarding flag. */
  predicate TokenAndFlag(env: string, token: string) {
    && ScriptReads(env, TOKEN_ENV_KEY) == Some(token) && DaemonReads(env, TOKEN_ENV_KEY) == Some(token)
    && ScriptReads(env, FORWARD_FLAG_KEY) == Some("1") && DaemonReads(env, FORWARD_FLAG_KEY) == Some("1")
  }

  lemma KeysAreValid()
    ensures ValidKey(TOKEN_ENV_KEY) && ValidKey(FORWARD_FLAG_KEY) && TOKEN_ENV_KEY != FORWARD_FLAG_KEY
    ensures SafeValue("1")
  {
    assert TOKEN_ENV_KEY[0] == 'C' && FORWARD_FLAG_KEY[0] == 'P' && EXPORT[0] == 'e';
  }

  /** Token and flag land in one write: what is read back holds both. */
  lemma SwitchWritesBoth(env: string, token: string)
    requires SafeValue(token)
    ensures TokenAndFlag(SwitchedEnv(env, token), token)
    ensures LiveToken(SwitchedEnv(env, token)) == Some(token)
  {
    KeysAreValid();
    var lines := SplitLines(env);
    var withToken := SetEnv(lines, TOKEN_ENV_KEY, token);
    RewriteKeepsLines(lines, TOKEN_ENV_KEY, token, false);
    RewriteKeepsLines(withToken, FORWARD_FLAG_KEY, "1", false);
    WrittenLines(SwitchedLines(lines, token));
    BothLoadersAgree(lines, TOKEN_ENV_KEY, token);
    BothLoadersAgree(withToken, FORWARD_FLAG_KEY, "1");
    OtherLiveReadings(withToken, FORWARD_FLAG_KEY, "1", TOKEN_ENV_KEY);
    ValidKeyNotExported(TOKEN_ENV_KEY);
    OtherFirstAssignments(withToken, FORWARD_FLAG_KEY, "1", TOKEN_ENV_KEY);
  }

  /** `active.token` after an attempt to remove it. */
  function Dropped(active: Option<string>, faults: Faults): Option<string> {
    if faults.removeFails then active else None
  }

  /** `active.token` after a revert: untouched if the slot check fails, the backup's token
      if the revert goes through, and otherwise removed as far as that works. */
  function ActiveAfterRevert(active: Option<string>, backup: string, faults: Faults): Option<string> {
    if faults.revertSlotBlocked then active
    else if faults.revertCopyFails || SyncRaises(faults.revertSync) then Dropped(active, faults)
    else LiveToken(backup)
  }

  /** `.env` and `active.token`, under the store lock. */
  class AccountStore {
    var env: string
    var active: Option<string>

    constructor (env: string, active: Option<string>)
      ensures this.env == env && this.active == active
    {
      this.env, this.active := env, active;
    }

    predicate Matches()
      reads this
    {
      active.Some? && active == LiveToken(env)
    }

    /** `sync_active_token`: mirror the live token, or remove the obsolete copy. */
    method SyncActiveToken(faults: SyncFaults) returns (raised: bool)
      modifies this`active
      ensures raised <==> faults.slotBlocked || faults.storeFails || faults.readFails || faults.lastStepFails
      ensures active == if raised then old(active) else LiveToken(env)
      ensures !raised ==> active == (if ScriptReads(env, "CLAUDE_CODE_OAUTH_TOKEN") == Some("") then None
                                     else ScriptReads(env, "CLAUDE_CODE_OAUTH_TOKEN"))
    {
      if faults.slotBlocked || faults.storeFails || faults.readFails {
        return true;
      }
      var live := ReadLiveValue(SplitLines(env), TOKEN_ENV_KEY);
      if faults.lastStepFails {
        return true;
      }
      active := if live.None? || live.value == "" then None else live;
      return false;
    }

    /** `_active_token_sync_failed`. */
    method ActiveTokenSyncFailed(removeFails: bool)
      modifies this`active
      ensures active == if removeFails then old(active) else None
    {
      if !removeFails { active := None; }
    }

    /** `_revert`: put the backup back and mirror its token; fail closed. */
    method Revert(backup: string, faults: Faults)
      modifies this
      ensures env == if faults.revertSlotBlocked || faults.revertCopyFails then old(env) else backup
      ensures active == ActiveAfterRevert(old(active), backup, faults)
    {
      if faults.revertSlotBlocked { return; }
      if faults.revertCopyFails {
        ActiveTokenSyncFailed(faults.removeFails);
        return;
      }
      env := backup;
      var raised := SyncActiveToken(faults.revertSync);
      if raised {
        ActiveTokenSyncFailed(faults.removeFails);
      }
    }

    /** `cmd_switch` after its checks. Success means both files hold the token;
        failure after the write means `.env` is the backup again unless the
        restoring copy (or the revert's slot check) failed, and `active.token` is
        absent, matches `.env`, or is unchanged beside a restored `.env`, unless
        its removal failed. */
    method Switch(token: string, faults: Faults) returns (exit: Exit)
      requires SafeValue(token)
      modifies this
      ensures exit == Raised <==> faults.writeFails
      ensures exit == Raised ==> env == old(env) && active == old(active)
      ensures exit != Raised ==> exit == Code(0) || exit == Code(1)
      ensures exit == Code(0) ==> TokenAndFlag(env, token) && active == Some(token)
      ensures exit == Code(0) <==>
                (!faults.writeFails && !SyncRaises(faults.sync) &&
                 (faults.restart.NotRequested? || (!faults.restart.Refused? && faults.generationAdvances)))
      ensures exit == Code(1) ==>
                env == if RestoreFails(faults) then SwitchedEnv(old(env), token) else old(env)
      ensures exit == Code(1) ==>
                active == if SyncRaises(faults.sync)
                          then (if faults.restoreFails then Dropped(old(active), faults) else old(active))
                          else ActiveAfterRevert(Some(token), old(env), faults)
      ensures exit == Code(1) ==>
                || active.None?
                || Matches()
                || (active == old(active) && env == old(env))
                || faults.removeFails
    {
      var lines := SplitLines(env);
      ghost var before := env;
      var backup := env;
      var newLines := SetEnvVar(lines, TOKEN_ENV_KEY, token);
      newLines := SetEnvVar(newLines, FORWARD_FLAG_KEY, "1");
      if faults.writeFails { return Raised; }
      env := FileText(newLines);
      SwitchWritesBoth(before, token);
      hide SwitchedEnv, TokenAndFlag, LiveToken;
      var raised := SyncActiveToken(faults.sync);
      if raised {
        if faults.restoreFails {
          ActiveTokenSyncFailed(faults.removeFails);
        } else {
          env := backup;
        }
        return Code(1);
      }
      if faults.restart.NotRequested? { return Code(0); }
      if faults.restart.Refused? {
        Revert(backup, faults);
        return Code(1);
      }
      if faults.generationAdvances { return Code(0); }
      Revert(backup, faults);
      return Code(1);
    }
  }

  /** The fault record of a restart that is refused when the index has become unreadable. */
  const INDEX_LOST := Faults(false, NO_SYNC_FAULTS, false, false, Refused, false, true, false, NO_SYNC_FAULTS)
  const NO_SYNC_FAULTS := SyncFaults(false, false, false, false)

  /** From an empty `.env`: the switch exits with 1 and the new `.env` stays in place. */
  method SwitchStays(token: string) returns (before: string, after: string, exit: Exit)
    requires SafeValue(token)
    ensures before == "" && exit == Code(1)
    ensures TokenAndFlag(after, token) && after != before
  {
    before := "";
    var store := new AccountStore(before, None);
    exit := store.Switch(token, INDEX_LOST);
    after := store.env;
    SwitchWritesBoth(before, token);
    assert LiveToken(before) == None;
    hide SwitchedEnv, LiveToken, TokenAndFlag;
  }

  /** A restart refused with a working revert puts both files back as they were, when
      `active.token` mirrored `.env` before. */
  method RefusedRestartUndone(env: string, was: string, token: string) returns (after: string, active: Option<string>)
    requires SafeValue(token) && LiveToken(env) == Some(was)
    ensures after == env && active == Some(was)
  {
    var store := new AccountStore(env, Some(was));
    var faults := Faults(false, NO_SYNC_FAULTS, false, false, Refused, false, false, false, NO_SYNC_FAULTS);
    var _ := store.Switch(token, faults);
    after, active := store.env, store.active;
  }

  predicate SyncRaises(f: SyncFaults) {
    f.slotBlocked || f.storeFails || f.readFails || f.lastStepFails
  }

  /** The copy that should put the backup back did not happen. */
  predicate RestoreFails(f: Faults) {
    if SyncRaises(f.sync) then f.restoreFails else f.revertSlotBlocked || f.revertCopyFails
  }
}
