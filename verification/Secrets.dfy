/** Validation of the secrets (validate/validate.go, checkSecrets). The key of an environment entry is
    cut off at its first `=`; an entry without one makes the slice expression panic, which is an
    outcome of its own here. */
module Secrets {
  import opened GoStrings
  import opened BuildModel

  const MAX_NUM_SECRET_ENVS := 100
  const MAX_SECRET_SIZE := 64 * 1024

  datatype Outcome = Accepted | Rejected | Panicked

  // ----- what acceptable secrets are

  /** The names a build uses: globally or in a step. */
  ghost function UsedNames(globals: seq<string>, steps: seq<StepValue>, n: nat): set<string>
    requires n <= |steps|
  {
    (set se | se in globals) + (set i, se | 0 <= i < n && se in steps[i].secretEnv :: se)
  }

  /** The names defined by the first `n` secrets. */
  ghost function DefinedNames(secrets: seq<Secret>, n: nat): set<string>
    requires n <= |secrets|
  {
    set k, se | 0 <= k < n && se in secrets[k].secretEnv.Keys :: se
  }

  predicate StepSecretsOk(globals: seq<string>, s: StepValue) {
    NoDuplicates(s.secretEnv) && forall se :: se in s.secretEnv ==> se !in globals
  }

  predicate DistinctSecrets(secrets: seq<Secret>) {
    && (forall k :: 0 <= k < |secrets| ==> secrets[k].secretEnv != map[])
    && (forall j, k :: 0 <= j < k < |secrets| ==> secrets[j].kmsKeyName != secrets[k].kmsKeyName)
    && (forall j, k :: 0 <= j < k < |secrets| ==> secrets[j].secretEnv.Keys !! secrets[k].secretEnv.Keys)
  }

  predicate SizesOk(s: Secret) {
    forall se :: se in s.secretEnv ==> |s.secretEnv[se]| <= MAX_SECRET_SIZE
  }

  /** Everything that is checked before the environments. */
  ghost predicate NamesOk(globals: seq<string>, steps: seq<StepValue>, secrets: seq<Secret>) {
    && NoDuplicates(globals)
    && (forall i :: 0 <= i < |steps| ==> StepSecretsOk(globals, steps[i]))
    && DistinctSecrets(secrets)
    && UsedNames(globals, steps, |steps|) == DefinedNames(secrets, |secrets|)
    && |DefinedNames(secrets, |secrets|)| <= MAX_NUM_SECRET_ENVS
    && (forall k :: 0 <= k < |secrets| ==> SizesOk(secrets[k]))
  }

  function EnvKey(e: string): string {
    e[..IndexOf(e, '=')]
  }

  /** Every environment entry the step runs with has a key. */
  predicate KeysOk(o: Options, s: StepValue) {
    forall e :: e in o.env + s.env ==> '=' in e
  }

  /** No secret of the step has the name of one of its environment variables. */
  predicate NoClash(o: Options, s: StepValue) {
    forall e, se :: e in o.env + s.env && se in o.secretEnv + s.secretEnv ==> EnvKey(e) != se
  }

  ghost predicate SecretsOk(o: Options, steps: seq<StepValue>, secrets: seq<Secret>) {
    && NamesOk(o.secretEnv, steps, secrets)
    && forall i :: 0 <= i < |steps| ==> KeysOk(o, steps[i]) && NoClash(o, steps[i])
  }

  /** An entry without `=` is reached before any clash. */
  ghost predicate SecretsPanic(o: Options, steps: seq<StepValue>, secrets: seq<Secret>) {
    && NamesOk(o.secretEnv, steps, secrets)
    && exists i :: 0 <= i < |steps| && !KeysOk(o, steps[i])
                   && forall j :: 0 <= j < i ==> KeysOk(o, steps[j]) && NoClash(o, steps[j])
  }

  // ----- the checker

  method CheckDuplicates(items: seq<string>) returns (ok: bool)
    ensures ok <==> NoDuplicates(items)
  {
    var found: set<string> := {};
    for k := 0 to |items|
      invariant NoDuplicates(items[..k])
      invariant found == set se | se in items[..k]
    {
      if items[k] in found {
        return false;
      }
      found := found + {items[k]};
    }
    assert items[..|items|] == items;
    return true;
  }

  method CheckStepSecrets(globals: seq<string>, steps: seq<StepValue>)
    returns (ok: bool, usedSecretEnvs: set<string>)
    ensures ok <==> forall i :: 0 <= i < |steps| ==> StepSecretsOk(globals, steps[i])
    ensures ok ==> usedSecretEnvs == UsedNames(globals, steps, |steps|)
  {
    usedSecretEnvs := set se | se in globals;
    for i := 0 to |steps|
      invariant forall k :: 0 <= k < i ==> forall se :: se in steps[k].secretEnv ==> se !in globals
    {
      for k := 0 to |steps[i].secretEnv|
        invariant forall se :: se in steps[i].secretEnv[..k] ==> se !in globals
      {
        if steps[i].secretEnv[k] in usedSecretEnvs {
          assert steps[i].secretEnv[k] in steps[i].secretEnv;
          return false, {};
        }
      }
    }
    for i := 0 to |steps|
      invariant forall k :: 0 <= k < i ==> NoDuplicates(steps[k].secretEnv)
      invariant usedSecretEnvs == UsedNames(globals, steps, i)
    {
      var unique := CheckDuplicates(steps[i].secretEnv);
      if !unique {
        return false, {};
      }
      usedSecretEnvs := usedSecretEnvs + set se | se in steps[i].secretEnv;
    }
    return true, usedSecretEnvs;
  }

  /** What one more secret must satisfy. */
  ghost predicate NextSecretOk(secrets: seq<Secret>, i: nat)
    requires i < |secrets|
  {
    && secrets[i].secretEnv != map[]
    && (forall k :: 0 <= k < i ==> secrets[k].kmsKeyName != secrets[i].kmsKeyName)
    && secrets[i].secretEnv.Keys !! DefinedNames(secrets, i)
  }

  lemma DistinctOneByOne(secrets: seq<Secret>, i: nat)
    requires i < |secrets|
    ensures DistinctSecrets(secrets[..i + 1]) <==> DistinctSecrets(secrets[..i]) && NextSecretOk(secrets, i)
  {
  }

  lemma DefinedNamesGrow(secrets: seq<Secret>, i: nat)
    requires i < |secrets|
    ensures DefinedNames(secrets, i + 1) == DefinedNames(secrets, i) + secrets[i].secretEnv.Keys
  {
  }

  lemma {:induction false} DistinctPrefix(secrets: seq<Secret>, i: nat)
    requires i <= |secrets|
    ensures DistinctSecrets(secrets) ==> DistinctSecrets(secrets[..i])
  {
  }

  /** The body of the loop over the secrets. */
  method CheckNextSecret(secrets: seq<Secret>, i: nat, definedSecretKeys: set<string>, definedSecretEnvs: set<string>)
    returns (ok: bool)
    requires i < |secrets|
    requires definedSecretKeys == set k | 0 <= k < i :: secrets[k].kmsKeyName
    requires definedSecretEnvs == DefinedNames(secrets, i)
    ensures ok <==> NextSecretOk(secrets, i)
  {
    hide DefinedNames;
    var sec := secrets[i];
    if sec.kmsKeyName in definedSecretKeys || |sec.secretEnv| == 0 {
      return false;
    }
    ok := sec.secretEnv.Keys !! definedSecretEnvs;
  }

  lemma NothingDefined(secrets: seq<Secret>)
    ensures DistinctSecrets(secrets[..0]) && DefinedNames(secrets, 0) == {}
  {
  }

  method CheckDefinitions(secrets: seq<Secret>) returns (ok: bool, definedSecretEnvs: set<string>)
    ensures ok <==> DistinctSecrets(secrets)
    ensures ok ==> definedSecretEnvs == DefinedNames(secrets, |secrets|)
  {
    definedSecretEnvs := {};
    var definedSecretKeys: set<string> := {};
    hide DistinctSecrets, DefinedNames, NextSecretOk;
    NothingDefined(secrets);
    assert secrets[..|secrets|] == secrets;
    for i := 0 to |secrets|
      invariant DistinctSecrets(secrets[..i])
      invariant definedSecretEnvs == DefinedNames(secrets, i)
      invariant definedSecretKeys == set k | 0 <= k < i :: secrets[k].kmsKeyName
    {
      var nextOk := CheckNextSecret(secrets, i, definedSecretKeys, definedSecretEnvs);
      DistinctOneByOne(secrets, i);
      DefinedNamesGrow(secrets, i);
      DistinctPrefix(secrets, i + 1);
      if !nextOk {
        return false, {};
      }
      definedSecretKeys := definedSecretKeys + {secrets[i].kmsKeyName};
      definedSecretEnvs := definedSecretEnvs + secrets[i].secretEnv.Keys;
    }
    return true, definedSecretEnvs;
  }

  method CheckSizes(secrets: seq<Secret>) returns (ok: bool)
    ensures ok <==> forall k :: 0 <= k < |secrets| ==> SizesOk(secrets[k])
  {
    for k := 0 to |secrets|
      invariant forall j :: 0 <= j < k ==> SizesOk(secrets[j])
    {
      var sizes, rest := secrets[k].secretEnv, secrets[k].secretEnv.Keys;
      while rest != {}
        invariant rest <= sizes.Keys
        invariant forall se :: se in sizes.Keys - rest ==> |sizes[se]| <= MAX_SECRET_SIZE
      {
        var se :| se in rest;
        if |sizes[se]| > MAX_SECRET_SIZE {
          return false;
        }
        rest := rest - {se};
      }
    }
    return true;
  }

  method CheckNames(globals: seq<string>, steps: seq<StepValue>, secrets: seq<Secret>) returns (ok: bool)
    ensures ok <==> NamesOk(globals, steps, secrets)
  {
    hide StepSecretsOk, DistinctSecrets, SizesOk, UsedNames, DefinedNames, NoDuplicates;
    var unique := CheckDuplicates(globals);
    if !unique {
      return false;
    }
    var stepsOk, used := CheckStepSecrets(globals, steps);
    if !stepsOk {
      return false;
    }
    var definitionsOk, defined := CheckDefinitions(secrets);
    if !definitionsOk || !(used <= defined) || !(defined <= used) || |defined| > MAX_NUM_SECRET_ENVS {
      return false;
    }
    ok := CheckSizes(secrets);
  }

  /** The body of the last loop: the environment keys of one step against its secrets. */
  method CheckStepClash(o: Options, s: StepValue) returns (outcome: Outcome)
    ensures outcome.Accepted? <==> KeysOk(o, s) && NoClash(o, s)
    ensures outcome.Panicked? <==> !KeysOk(o, s)
  {
    hide EnvKey;
    var envs: set<string> := {};
    var all := o.env + s.env;
    for k := 0 to |all|
      invariant forall e :: e in all[..k] ==> '=' in e
      invariant envs == set e | e in all[..k] :: EnvKey(e)
    {
      if '=' !in all[k] {
        assert all[k] in all;
        return Panicked;
      }
      assert all[..k + 1] == all[..k] + [all[k]];
      envs := envs + {EnvKey(all[k])};
    }
    assert all[..|all|] == all;
    var names := o.secretEnv + s.secretEnv;
    for k := 0 to |names|
      invariant forall se :: se in names[..k] ==> se !in envs
    {
      if names[k] in envs {
        var e :| e in all && EnvKey(e) == names[k];
        assert names[k] in names;
        return Rejected;
      }
    }
    assert names[..|names|] == names;
    assert forall e :: e in all ==> EnvKey(e) in envs;
    return Accepted;
  }

  method CheckSecrets(o: Options, steps: seq<StepValue>, secrets: seq<Secret>) returns (outcome: Outcome)
    ensures outcome.Accepted? <==> SecretsOk(o, steps, secrets)
    ensures outcome.Panicked? <==> SecretsPanic(o, steps, secrets)
  {
    hide NamesOk, KeysOk, NoClash;
    var namesOk := CheckNames(o.secretEnv, steps, secrets);
    if !namesOk {
      return Rejected;
    }
    for i := 0 to |steps|
      invariant forall k :: 0 <= k < i ==> KeysOk(o, steps[k]) && NoClash(o, steps[k])
    {
      outcome := CheckStepClash(o, steps[i]);
      if !outcome.Accepted? {
        return outcome;
      }
    }
    return Accepted;
  }

  // ----- consequences

  /** The first step that is not accepted decides between a panic and an error. */
  lemma FirstBadStepDecides(o: Options, steps: seq<StepValue>, secrets: seq<Secret>, i: nat)
    requires NamesOk(o.secretEnv, steps, secrets) && i < |steps|
    requires forall j :: 0 <= j < i ==> KeysOk(o, steps[j]) && NoClash(o, steps[j])
    requires !(KeysOk(o, steps[i]) && NoClash(o, steps[i]))
    ensures !SecretsOk(o, steps, secrets)
    ensures SecretsPanic(o, steps, secrets) <==> !KeysOk(o, steps[i])
  {
    hide NamesOk, KeysOk, NoClash;
    if k: nat :| k < |steps| && !KeysOk(o, steps[k])
                 && forall j :: 0 <= j < k ==> KeysOk(o, steps[j]) && NoClash(o, steps[j]) {
      assert k <= i && i <= k;
    }
  }

  /** In an accepted build a used name is defined by exactly one secret. */
  lemma UsedSecretHasOneDefinition(o: Options, steps: seq<StepValue>, secrets: seq<Secret>, i: nat, se: string)
    requires SecretsOk(o, steps, secrets) && i < |steps| && se in o.secretEnv + steps[i].secretEnv
    ensures exists k :: 0 <= k < |secrets| && se in secrets[k].secretEnv
                        && forall j :: 0 <= j < |secrets| && se in secrets[j].secretEnv ==> j == k
  {
    assert se in UsedNames(o.secretEnv, steps, |steps|);
    assert se in DefinedNames(secrets, |secrets|);
    var k :| 0 <= k < |secrets| && se in secrets[k].secretEnv.Keys;
    forall j | 0 <= j < |secrets| && se in secrets[j].secretEnv ensures j == k {
      assert se in secrets[j].secretEnv.Keys * secrets[k].secretEnv.Keys;
    }
  }
}
