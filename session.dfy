/**
 * Repeated `doSudiCert` invocations on one host, one after another, each
 * starting from the filesystem the previous one left. The collaborators
 * answer the same way throughout; each invocation brings its own VM name,
 * keyset, machine UUID and time.
 */
module Session {
  import opened Os
  import opened X509
  import opened Sudi
  import opened SudiProperties

  /** The arguments of one invocation, with the UUID and the time it draws. */
  datatype Invocation = Invocation(vmName: string, keyset: string, machineUUID: string, now: Time)

  /** The filesystem after running `calls` in order, starting from `fs`. */
  function Replay(env: Env, fs: FileSystem, calls: seq<Invocation>): FileSystem
    decreases |calls|
  {
    if calls == [] then fs
    else
      var c := calls[|calls| - 1];
      Issue(env, Replay(env, fs, calls[..|calls| - 1]), c.vmName, c.keyset, c.machineUUID, c.now).fs
  }

  /** The run of the `k`-th invocation, on the filesystem the earlier ones left. */
  function RunAt(env: Env, fs: FileSystem, calls: seq<Invocation>, k: nat): Run
    requires k < |calls|
  {
    var c := calls[k];
    Issue(env, Replay(env, fs, calls[..k]), c.vmName, c.keyset, c.machineUUID, c.now)
  }

  /** The run signed a new credential and returned nil. */
  predicate Issued(r: Run)
  {
    r.status == Nil && EndsWithSign(r.trace)
  }

  /** The filesystem after the `k`-th invocation is the one that invocation produced. */
  lemma ReplayStep(env: Env, fs: FileSystem, calls: seq<Invocation>, k: nat)
    requires k < |calls|
    ensures Replay(env, fs, calls[..k + 1]) == RunAt(env, fs, calls, k).fs
  {
    assert calls[..k + 1][..k] == calls[..k];
  }

  /** Keeping every entry is transitive. */
  lemma PreservesTrans(a: FileSystem, b: FileSystem, c: FileSystem)
    requires Preserves(a, b) && Preserves(b, c)
    ensures Preserves(a, c)
  {
  }

  /** One invocation keeps every entry the earlier ones left. */
  lemma StepPreserves(env: Env, fs: FileSystem, calls: seq<Invocation>, m: nat)
    requires 0 < m <= |calls|
    ensures Preserves(Replay(env, fs, calls[..m - 1]), Replay(env, fs, calls[..m]))
  {
    ReplayStep(env, fs, calls, m - 1);
    var c := calls[m - 1];
    IssueFrame(env, Replay(env, fs, calls[..m - 1]), c.vmName, c.keyset, c.machineUUID, c.now);
  }

  /**
   * Nothing already on disk is ever removed or changed by later
   * invocations, for whichever VMs they are made.
   */
  lemma {:induction false} ReplayPreserves(env: Env, fs: FileSystem, calls: seq<Invocation>, k: nat, m: nat)
    requires k <= m <= |calls|
    ensures Preserves(Replay(env, fs, calls[..k]), Replay(env, fs, calls[..m]))
    decreases m - k
  {
    if k < m {
      ReplayPreserves(env, fs, calls, k, m - 1);
      StepPreserves(env, fs, calls, m);
      PreservesTrans(Replay(env, fs, calls[..k]), Replay(env, fs, calls[..m - 1]), Replay(env, fs, calls[..m]));
    }
  }

  /**
   * Once an invocation has issued a credential for a VM, every later
   * invocation for that VM returns nil after its existence checks and
   * changes nothing: a VM is credentialed at most once.
   */
  lemma {:induction false} AtMostOneIssuePerVm(env: Env, fs: FileSystem, calls: seq<Invocation>, i: nat, j: nat)
    requires i < j < |calls| && calls[i].vmName == calls[j].vmName
    requires Issued(RunAt(env, fs, calls, i))
    ensures var r := RunAt(env, fs, calls, j);
            r.status == Nil && r.fs == Replay(env, fs, calls[..j]) && OnlyChecks(r.trace) &&
            !Issued(r)
  {
    var c := calls[i];
    var before := Replay(env, fs, calls[..i]);
    NilOnlyWhenSigned(env, before, c.vmName, c.keyset, c.machineUUID, c.now);
    IssueFrame(env, before, c.vmName, c.keyset, c.machineUUID, c.now);
    ReplayStep(env, fs, calls, i);
    ReplayPreserves(env, fs, calls, i + 1, j);
    var d := calls[j];
    var at := Replay(env, fs, calls[..j]);
    assert Initialized(env, at, d.vmName);
    ExistingCredentialReturnsNil(env, at, d.vmName, d.keyset, d.machineUUID, d.now);
  }
}
