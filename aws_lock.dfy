/** Changing the lock status of profiles: read both files, check the targets,
    set `is_locked` on every target profile, rewrite both files; and the
    guard that unlocks profiles for a while and locks them again when it is
    released. */
module AwsLock {
  import opened Errors
  import opened AwsProfiles
  import opened ProfileRoundTrip
  import opened ParsedShape

  /** `profile_indices`: each name to its position; a later profile with
      the same name replaces an earlier one, as collecting into a `HashMap`
      does. */
  function ProfileIndices(ps: seq<AwsProfile>): (m: map<ProfileName, nat>)
    ensures forall n :: n in m <==> n in ProfileNames(ps)
    ensures forall n :: n in m ==> m[n] < |ps| && ps[m[n]].name == n
    decreases |ps|
  {
    if ps == [] then map[]
    else
      var last := |ps| - 1;
      assert forall n :: n in ProfileNames(ps) <==> n in ProfileNames(ps[..last]) || n == ps[last].name;
      ProfileIndices(ps[..last])[ps[last].name := last]
  }

  /** With distinct names, each profile's name leads back to it. */
  lemma ProfileIndicesDistinct(ps: seq<AwsProfile>, i: nat)
    requires Distinct(ProfileNames(ps)) && i < |ps|
    ensures ps[i].name in ProfileIndices(ps) && ProfileIndices(ps)[ps[i].name] == i
  {
    var ns := ProfileNames(ps);
    var m := ProfileIndices(ps);
    assert ps[i].name in m by {
      assert ns[i] in ns;
    }
    var j := m[ps[i].name];
    assert ns[j] == ns[i];
    if j != i {
      DistinctAt(ns, i, j);
    }
  }

  lemma DistinctAt(ns: seq<ProfileName>, i: nat, j: nat)
    requires Distinct(ns) && i < |ns| && j < |ns| && i != j
    ensures ns[i] != ns[j]
  {
    if j < i {
      assert ns[j] != ns[i];
    }
  }

  /** The index map depends only on the names, in order. */
  lemma {:induction false} ProfileIndicesOfNames(ps: seq<AwsProfile>, qs: seq<AwsProfile>)
    requires ProfileNames(ps) == ProfileNames(qs)
    ensures ProfileIndices(ps) == ProfileIndices(qs)
    decreases |ps|
  {
    if ps != [] {
      var last := |ps| - 1;
      assert ProfileNames(ps[..last]) == ProfileNames(qs[..last]) by {
        assert forall i :: 0 <= i < last ==> ProfileNames(ps)[i] == ProfileNames(qs)[i];
      }
      assert ps[last].name == qs[last].name by {
        assert ProfileNames(ps)[last] == ProfileNames(qs)[last];
      }
      ProfileIndicesOfNames(ps[..last], qs[..last]);
    }
  }

  /** The targets that name no profile, in target order. */
  function UnknownTargets(ps: seq<AwsProfile>, targets: seq<ProfileName>): (us: seq<ProfileName>)
    ensures forall t :: t in us <==> t in targets && t !in ProfileNames(ps)
    ensures |us| <= |targets|
    decreases |targets|
  {
    if targets == [] then []
    else
      var rest := UnknownTargets(ps, targets[1..]);
      assert forall t :: t in targets <==> t == targets[0] || t in targets[1..];
      if targets[0] in ProfileIndices(ps) then rest else [targets[0]] + rest
  }

  /** The names as the error message shows them (`None` as `default`). */
  function DisplayNames(ns: seq<ProfileName>): (ss: seq<string>)
    ensures |ss| == |ns| && forall i :: 0 <= i < |ns| ==> ss[i] == ToString(ns[i])
  {
    seq(|ns|, i requires 0 <= i < |ns| => ToString(ns[i]))
  }

  /** The positions the `for_each` writes: that of each target naming a profile. */
  function TargetIndices(ps: seq<AwsProfile>, targets: seq<ProfileName>): set<nat> {
    set t | t in targets && t in ProfileIndices(ps) :: ProfileIndices(ps)[t]
  }

  /** The profiles once every target position has its lock flag set. */
  function SetLockStatus(ps: seq<AwsProfile>, targets: seq<ProfileName>, lock: bool): seq<AwsProfile> {
    seq(|ps|, i requires 0 <= i < |ps| => if i in TargetIndices(ps, targets) then ps[i].(isLocked := lock) else ps[i])
  }

  /** `modify_lock_status` on the texts of the two files: the profiles it
      writes back, or the error it stops with, in which case nothing is
      written. */
  function LockOutcome(config: string, credentials: string, targets: seq<ProfileName>,
                       errorIfNotExists: bool, lock: bool): Result<seq<AwsProfile>>
  {
    var ps :- ParseProfiles(config, credentials);
    var unknown := UnknownTargets(ps, targets);
    if errorIfNotExists && unknown != [] then Err(UnknownProfiles(DisplayNames(unknown)))
    else Ok(SetLockStatus(ps, targets, lock))
  }

  // ---------------------------------------------------------------------
  // What a lock status change does

  /** Profiles with distinct names (every parse gives such): a profile is
      changed exactly when a target names it, and then only in its lock flag. */
  lemma SetLockStatusEffect(ps: seq<AwsProfile>, targets: seq<ProfileName>, lock: bool)
    requires Distinct(ProfileNames(ps))
    ensures var qs := SetLockStatus(ps, targets, lock);
      && |qs| == |ps|
      && (forall i :: 0 <= i < |ps| ==> qs[i].isLocked == (if ps[i].name in targets then lock else ps[i].isLocked))
      && (forall i :: 0 <= i < |ps| ==> qs[i].(isLocked := ps[i].isLocked) == ps[i])
  {
    var qs := SetLockStatus(ps, targets, lock);
    forall i | 0 <= i < |ps|
      ensures qs[i].isLocked == (if ps[i].name in targets then lock else ps[i].isLocked)
    {
      ProfileIndicesDistinct(ps, i);
      if ps[i].name in targets {
        assert i in TargetIndices(ps, targets);
      }
      if i in TargetIndices(ps, targets) {
        var t :| t in targets && t in ProfileIndices(ps) && ProfileIndices(ps)[t] == i;
        assert t == ps[i].name;
      }
    }
  }

  /** No profile is created, dropped or moved: the names stay as they are,
      absent targets included. */
  lemma SetLockStatusNames(ps: seq<AwsProfile>, targets: seq<ProfileName>, lock: bool)
    ensures ProfileNames(SetLockStatus(ps, targets, lock)) == ProfileNames(ps)
  {
  }

  /** A second change of the same targets overrides the first; with the
      same flag this is idempotence. */
  lemma SetLockStatusTwice(ps: seq<AwsProfile>, targets: seq<ProfileName>, a: bool, b: bool)
    ensures SetLockStatus(SetLockStatus(ps, targets, a), targets, b) == SetLockStatus(ps, targets, b)
  {
    var qs := SetLockStatus(ps, targets, a);
    SetLockStatusNames(ps, targets, a);
    ProfileIndicesOfNames(qs, ps);
    assert TargetIndices(qs, targets) == TargetIndices(ps, targets);
  }

  lemma SetLockStatusIdempotent(ps: seq<AwsProfile>, targets: seq<ProfileName>, lock: bool)
    ensures var qs := SetLockStatus(ps, targets, lock);
      SetLockStatus(qs, targets, lock) == qs
  {
    SetLockStatusTwice(ps, targets, lock, lock);
  }

  /** Changing the lock flag keeps profiles writable and re-readable. */
  lemma SetLockStatusKeepsOk(ps: seq<AwsProfile>, targets: seq<ProfileName>, lock: bool)
    requires ProfilesOk(ps)
    ensures ProfilesOk(SetLockStatus(ps, targets, lock))
  {
    SetLockStatusNames(ps, targets, lock);
  }

  /** A change succeeds exactly when both files parse and, when absent
      targets are an error, every target names a profile; the error then
      lists exactly the absent targets, in target order. */
  lemma LockOutcomeCases(config: string, credentials: string, targets: seq<ProfileName>,
                         errorIfNotExists: bool, lock: bool)
    ensures var o := LockOutcome(config, credentials, targets, errorIfNotExists, lock);
      var p := ParseProfiles(config, credentials);
      && (p.Err? ==> o == Err(p.error))
      && (p.Ok? ==>
            && (o.Ok? <==> !errorIfNotExists || forall t :: t in targets ==> t in ProfileNames(p.value))
            && (o.Ok? ==> o.value == SetLockStatus(p.value, targets, lock))
            && (o.Err? ==> o.error == UnknownProfiles(DisplayNames(UnknownTargets(p.value, targets)))
                           && forall t :: t in UnknownTargets(p.value, targets) <==> t in targets && t !in ProfileNames(p.value)))
  {
    var p := ParseProfiles(config, credentials);
    if p.Ok? {
      var us := UnknownTargets(p.value, targets);
      if us != [] {
        assert us[0] in us;
      }
    }
  }

  /** After a successful change every target that names a profile has the
      requested flag, and every other profile is as parsed. */
  lemma LockOutcomeTargets(config: string, credentials: string, targets: seq<ProfileName>,
                           errorIfNotExists: bool, lock: bool)
    requires LockOutcome(config, credentials, targets, errorIfNotExists, lock).Ok?
    ensures var ps := ParseProfiles(config, credentials).value;
      var qs := LockOutcome(config, credentials, targets, errorIfNotExists, lock).value;
      && |qs| == |ps|
      && (forall i :: 0 <= i < |ps| && ps[i].name in targets ==> qs[i].isLocked == lock)
      && (forall i :: 0 <= i < |ps| && ps[i].name !in targets ==> qs[i] == ps[i])
      && (forall i :: 0 <= i < |ps| ==> qs[i].(isLocked := ps[i].isLocked) == ps[i])
  {
    ParsedNamesDistinct(config, credentials);
    var ps := ParseProfiles(config, credentials).value;
    SetLockStatusEffect(ps, targets, lock);
  }

  /** Changing the lock flag keeps profiles readable. */
  lemma SetLockStatusKeepsReadable(ps: seq<AwsProfile>, targets: seq<ProfileName>, lock: bool)
    requires ProfilesReadable(ps)
    ensures ProfilesReadable(SetLockStatus(ps, targets, lock))
  {
    SetLockStatusNames(ps, targets, lock);
  }

  /** Unlocking, reading back and locking again keeps every profile, its
      name, order and production flag, locks every target, and leaves every
      other profile's lock flag as it was. */
  lemma UnlockReadLock(ps: seq<AwsProfile>, targets: seq<ProfileName>)
    requires Distinct(ProfileNames(ps))
    ensures var qs := SetLockStatus(ReadProfiles(SetLockStatus(ps, targets, false)), targets, true);
      && ProfileNames(qs) == ProfileNames(ps)
      && (forall i :: 0 <= i < |ps| && ps[i].name in targets ==> qs[i].isLocked)
      && (forall i :: 0 <= i < |ps| && ps[i].name !in targets ==> qs[i].isLocked == ps[i].isLocked)
      && (forall i :: 0 <= i < |ps| ==> qs[i].isProduction == ps[i].isProduction)
  {
    var us := SetLockStatus(ps, targets, false);
    var rs := ReadProfiles(us);
    var qs := SetLockStatus(rs, targets, true);
    SetLockStatusEffect(ps, targets, false);
    SetLockStatusNames(ps, targets, false);
    ReadProfilesKeep(us);
    SetLockStatusEffect(rs, targets, true);
    SetLockStatusNames(rs, targets, true);
    forall i | 0 <= i < |ps| ensures qs[i].isProduction == ps[i].isProduction {
      assert qs[i].(isLocked := rs[i].isLocked) == rs[i];
      assert us[i].(isLocked := ps[i].isLocked) == ps[i];
    }
  }

  /** Unlocking and releasing again, whatever the files hold: the release
      reads back what the unlock wrote (comments and values as the lexer
      reads them), keeps every profile, its name, order and production
      flag, locks every target, and leaves every other profile's lock flag
      as first parsed. */
  lemma UnlockThenRelease(config: string, credentials: string, targets: seq<ProfileName>)
    requires LockOutcome(config, credentials, targets, true, false).Ok?
    ensures var ps := ParseProfiles(config, credentials).value;
      var us := LockOutcome(config, credentials, targets, true, false).value;
      var r := LockOutcome(ConfigText(ConfigsOf(us)), CredentialsText(CredentialsOf(us)), targets, false, true);
      && r == Ok(SetLockStatus(ReadProfiles(us), targets, true))
      && ProfileNames(r.value) == ProfileNames(ps)
      && (forall i :: 0 <= i < |ps| && ps[i].name in targets ==> r.value[i].isLocked)
      && (forall i :: 0 <= i < |ps| && ps[i].name !in targets ==> r.value[i].isLocked == ps[i].isLocked)
      && (forall i :: 0 <= i < |ps| ==> r.value[i].isProduction == ps[i].isProduction)
  {
    var ps := ParseProfiles(config, credentials).value;
    var us := SetLockStatus(ps, targets, false);
    assert LockOutcome(config, credentials, targets, true, false).value == us;
    ParsedReadable(config, credentials);
    assert ParseProfiles(ConfigText(ConfigsOf(us)), CredentialsText(CredentialsOf(us))) == Ok(ReadProfiles(us)) by {
      SetLockStatusKeepsReadable(ps, targets, false);
      WriteThenParseRead(us);
    }
    UnlockReadLock(ps, targets);
  }

  /** Unlocking and releasing well-formed profiles: the release reads back
      exactly what the unlock wrote, and leaves the targets locked and
      everything else as it was. */
  lemma UnlockThenReleaseExact(config: string, credentials: string, targets: seq<ProfileName>)
    requires ParseProfiles(config, credentials).Ok? && ProfilesOk(ParseProfiles(config, credentials).value)
    requires LockOutcome(config, credentials, targets, true, false).Ok?
    ensures var ps := ParseProfiles(config, credentials).value;
      var us := LockOutcome(config, credentials, targets, true, false).value;
      LockOutcome(ConfigText(ConfigsOf(us)), CredentialsText(CredentialsOf(us)), targets, false, true)
        == Ok(SetLockStatus(ps, targets, true))
  {
    var ps := ParseProfiles(config, credentials).value;
    var us := SetLockStatus(ps, targets, false);
    assert LockOutcome(config, credentials, targets, true, false).value == us;
    assert ParseProfiles(ConfigText(ConfigsOf(us)), CredentialsText(CredentialsOf(us))) == Ok(us) by {
      SetLockStatusKeepsOk(ps, targets, false);
      WriteThenParse(us);
    }
    assert SetLockStatus(us, targets, true) == SetLockStatus(ps, targets, true) by {
      SetLockStatusTwice(ps, targets, false, true);
    }
  }

  lemma TargetIndicesSnoc(ps: seq<AwsProfile>, targets: seq<ProfileName>, k: nat)
    requires k < |targets|
    ensures var m := ProfileIndices(ps); var t := targets[k];
      TargetIndices(ps, targets[..k + 1])
        == TargetIndices(ps, targets[..k]) + (if t in m then {m[t]} else {})
  {
    assert forall t :: t in targets[..k + 1] <==> t in targets[..k] || t == targets[k] by {
      assert targets[..k + 1] == targets[..k] + [targets[k]];
    }
  }

  /** `modify_lock_status`, with the two files held by `store`. */
  method ModifyLockStatus(store: AwsFile, targets: seq<ProfileName>, errorIfNotExists: bool, lock: bool)
    returns (r: Result<()>)
    modifies store
    ensures var o := LockOutcome(old(store.config), old(store.credentials), targets, errorIfNotExists, lock);
      && (o.Err? ==> r == Err(o.error) && store.config == old(store.config) && store.credentials == old(store.credentials))
      && (o.Ok? ==> r == Ok(()) && store.config == ConfigText(ConfigsOf(o.value))
                    && store.credentials == CredentialsText(CredentialsOf(o.value)))
  {
    ghost var o := LockOutcome(store.config, store.credentials, targets, errorIfNotExists, lock);
    var parsed := store.Parse();
    if parsed.Err? {
      assert o == Err(parsed.error);
      return Err(parsed.error);
    }
    var profiles := parsed.value;
    var indices := ProfileIndices(profiles);
    if errorIfNotExists {
      var unknown := UnknownTargets(profiles, targets);
      if unknown != [] {
        assert o == Err(UnknownProfiles(DisplayNames(unknown)));
        return Err(UnknownProfiles(DisplayNames(unknown)));
      }
    }
    assert o == Ok(SetLockStatus(profiles, targets, lock));
    profiles := SetTargets(profiles, indices, targets, lock);
    store.Write(profiles);
    return Ok(());
  }

  /** The `filter`/`for_each` of `modify_lock_status`: the lock flag of
      each target's profile is set in place, absent targets skipped. */
  method SetTargets(ps: seq<AwsProfile>, indices: map<ProfileName, nat>, targets: seq<ProfileName>, lock: bool)
    returns (profiles: seq<AwsProfile>)
    requires indices == ProfileIndices(ps)
    ensures profiles == SetLockStatus(ps, targets, lock)
  {
    profiles := ps;
    for k := 0 to |targets|
      invariant LockedAt(ps, TargetIndices(ps, targets[..k]), lock, profiles)
    {
      TargetIndicesSnoc(ps, targets, k);
      var name := targets[k];
      if name in indices {
        var i := indices[name];
        LockedAtOneMore(ps, TargetIndices(ps, targets[..k]), lock, profiles, i);
        profiles := profiles[i := profiles[i].(isLocked := lock)];
      }
    }
    assert targets[..|targets|] == targets;
  }

  /** `qs` is `ps` with the lock flag set to `lock` at the positions `ix`. */
  predicate LockedAt(ps: seq<AwsProfile>, ix: set<nat>, lock: bool, qs: seq<AwsProfile>) {
    |qs| == |ps| && forall i :: 0 <= i < |ps| ==> qs[i] == if i in ix then ps[i].(isLocked := lock) else ps[i]
  }

  /** Setting the flag at one more position. */
  lemma LockedAtOneMore(ps: seq<AwsProfile>, ix: set<nat>, lock: bool, qs: seq<AwsProfile>, i: nat)
    requires LockedAt(ps, ix, lock, qs) && i < |ps|
    ensures LockedAt(ps, ix + {i}, lock, qs[i := qs[i].(isLocked := lock)])
  {
  }

  /** `AwsLockGuard`: the targets unlocked for as long as the guard lives. */
  class AwsLockGuard {
    const store: AwsFile
    const targetProfiles: seq<ProfileName>
    /** Whether the drop has run; it runs once. */
    ghost var released: bool

    constructor (store: AwsFile, targetProfiles: seq<ProfileName>)
      ensures this.store == store && this.targetProfiles == targetProfiles && !released
    {
      this.store := store;
      this.targetProfiles := targetProfiles;
      released := false;
    }

    /** `AwsLockGuard::unlock`: unlocking every target, each of which must
        exist; a guard only when that succeeded. */
    static method Unlock(store: AwsFile, targetProfiles: seq<ProfileName>) returns (r: Result<AwsLockGuard>)
      modifies store
      ensures var o := LockOutcome(old(store.config), old(store.credentials), targetProfiles, true, false);
        && (o.Err? ==> r == Err(o.error) && store.config == old(store.config) && store.credentials == old(store.credentials))
        && (o.Ok? ==> r.Ok? && fresh(r.value) && r.value.store == store && r.value.targetProfiles == targetProfiles
                      && !r.value.released
                      && store.config == ConfigText(ConfigsOf(o.value))
                      && store.credentials == CredentialsText(CredentialsOf(o.value)))
    {
      var m := ModifyLockStatus(store, targetProfiles, true, false);
      if m.Err? {
        return Err(m.error);
      }
      var guard := new AwsLockGuard(store, targetProfiles);
      return Ok(guard);
    }

    /** The drop: locking the targets again, skipping absent ones, and
        ignoring any failure. */
    method Release()
      requires !released
      modifies this, store
      ensures released
      ensures var o := LockOutcome(old(store.config), old(store.credentials), targetProfiles, false, true);
        && (o.Err? ==> store.config == old(store.config) && store.credentials == old(store.credentials))
        && (o.Ok? ==> store.config == ConfigText(ConfigsOf(o.value))
                      && store.credentials == CredentialsText(CredentialsOf(o.value)))
    {
      var ignored := ModifyLockStatus(store, targetProfiles, false, true);
      released := true;
    }

    /** `AwsLockGuard::lock`: gives the guard up, which runs the drop. */
    method Lock()
      requires !released
      modifies this, store
      ensures released
      ensures var o := LockOutcome(old(store.config), old(store.credentials), targetProfiles, false, true);
        && (o.Err? ==> store.config == old(store.config) && store.credentials == old(store.credentials))
        && (o.Ok? ==> store.config == ConfigText(ConfigsOf(o.value))
                      && store.credentials == CredentialsText(CredentialsOf(o.value)))
    {
      Release();
    }
  }
}
