/** The password of a user: every update taken while it is not as desired brings it strictly nearer, whatever the
    policy. */
module UserPassword {
  import opened UserModel

  /** How many updates the password still needs: enabling, disabling or setting it is one each. */
  function Rank(desired: Password, enabled: bool, current: string): nat {
    match desired
    case NoPassword => if enabled then 1 else 0
    case WithoutSecret => 1
    case FromSecret(secret) => (if enabled then 0 else 1) + (if current == secret then 0 else 1)
  }

  function RankOf(s: State): nat {
    Rank(s.spec.password, s.account.passwordEnabled, s.account.password)
  }

  lemma EarlierStep(i: nat, s: State, t: State, ok: bool, desired: Desired)
    requires i < 5 && Step(i, s, t, ok, desired)
    ensures SamePassword(s, t)
  {
    hide ToGrant, ToRevoke, RolesRun;
  }

  /** An update that ends well ends with the password step; one that fails leaves the password alone. */
  lemma {:induction false} LastStep(i: nat, s: State, t: State, ok: bool, desired: Desired)
    requires i <= 5 && StepsFrom(i, s, t, ok, desired)
    ensures ok ==> exists p :: SamePassword(s, p) && PasswordStep(p, t, true)
    ensures !ok ==> SamePassword(s, t)
    decreases 5 - i
  {
    hide Step;
    var m, k :| Step(i, s, m, k, desired) && (if k then StepsFrom(i + 1, m, t, ok, desired) else t == m && !ok);
    if i < 5 {
      EarlierStep(i, s, m, k, desired);
      if k {
        LastStep(i + 1, m, t, ok, desired);
      }
    } else {
      PasswordIsLast(s, m, t, k, ok, desired);
    }
  }

  lemma PasswordIsLast(s: State, m: State, t: State, k: bool, ok: bool, desired: Desired)
    requires Step(5, s, m, k, desired) && (if k then StepsFrom(6, m, t, ok, desired) else t == m && !ok)
    ensures t == m && ok == k && PasswordStep(s, t, ok)
  {}

  /** With a secret or without any password: Observe finds the password up to date exactly at rank 0, an update that
      fails leaves the rank, one that succeeds lowers it by one; the rank is at most 2. */
  lemma PasswordTerminates(s: State, m: State, t: State, upToDate: bool, ok: bool)
    requires !s.spec.password.WithoutSecret?
    requires Observed(s, m, upToDate) && Updated(m, t, ok)
    ensures RankOf(s) <= 2
    ensures IsPasswordUpToDate(m.status, s.spec) <==> RankOf(s) == 0
    ensures RankOf(t) == if ok && RankOf(s) > 0 then RankOf(s) - 1 else RankOf(s)
  {
    hide DesiredOf, StepsFrom, PrivilegeTexts, RoleTexts, UpToDate, Managed, UpdatePath;
    UpdatedIff(m, t, ok);
    LastStep(0, m, t, ok, DesiredOf(m.spec, m.schema).value);
  }

  /** A password object without a secret reference is never up to date. */
  lemma WithoutSecretNever(s: State, m: State, upToDate: bool)
    requires s.spec.password.WithoutSecret? && Observed(s, m, upToDate)
    ensures !upToDate
  {}
}
