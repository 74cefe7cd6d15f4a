/** What applying a statefile achieves: a second apply has nothing left to write for cargoes, and orphan
    removal followed by apply leaves exactly what the file names. */
module Convergence {
  import opened Specs
  import opened StateApply

  predicate Distinct(names: seq<string>) {
    forall i, j | 0 <= i < j < |names| :: names[i] != names[j]
  }

  function FirstNames(names: seq<string>, k: nat): set<string>
    requires k <= |names|
  {
    if k == 0 then {} else FirstNames(names, k - 1) + {names[k - 1]}
  }

  lemma {:induction false} FirstNamesAre(names: seq<string>, k: nat)
    requires k <= |names|
    ensures forall n :: n in FirstNames(names, k) <==> n in names[..k]
  {
    if k > 0 {
      FirstNamesAre(names, k - 1);
      assert names[..k] == names[..k - 1] + [names[k - 1]];
    }
  }

  lemma {:induction false} NewName(names: seq<string>, k: nat)
    requires k < |names| && Distinct(names)
    ensures names[k] !in FirstNames(names, k)
  {
    FirstNamesAre(names, k);
  }

  // ---------------------------------------------------------------- what the sections leave behind

  /** The secret's row after it was applied: everything as in the file, except that kind and immutable
      flag of a secret that existed before are kept. */
  predicate SecretDone(s: SecretPartial, group: string, before: map<string, SecretRow>, now: map<string, SecretRow>) {
    && s.name in now && IsLabelled(now[s.name].metadata, s.metadata, group) && now[s.name].data == s.data
    && now[s.name].kind == (if s.name in before then before[s.name].kind else s.kind)
    && now[s.name].immutable == (if s.name in before then before[s.name].immutable else s.immutable)
  }

  predicate CargoDone(c: CargoSpecPartial, group: string, namespace: string, now: map<string, CargoRow>) {
    var key := KeyOf(namespace, c.name);
    && key in now && IsLabelled(now[key].spec.metadata, c.metadata, group)
    && now[key].spec == c.(metadata := now[key].spec.metadata)
  }

  ghost predicate SecretsDone(list: seq<SecretPartial>, k: nat, group: string, before: map<string, SecretRow>,
                              now: map<string, SecretRow>)
    requires k <= |list|
  {
    && (forall j | 0 <= j < k :: SecretDone(list[j], group, before, now))
    && (forall n | n !in FirstNames(SecretNames(list), k) ::
          (n in now <==> n in before) && (n in before ==> now[n] == before[n]))
  }

  lemma {:induction false} SecretStep(r: Run, group: string, s: SecretPartial, reply: Reply,
                                      before: map<string, SecretRow>)
    requires s.name in r.server.secrets <==> s.name in before
    requires s.name in before ==> r.server.secrets[s.name] == before[s.name]
    requires SecretApplied(r, group, s, reply).end.Completed?
    ensures var now, was := SecretApplied(r, group, s, reply).server.secrets, r.server.secrets;
            && SecretDone(s, group, before, now)
            && now.Keys == was.Keys + {s.name}
            && (forall n | n in was && n != s.name :: now[n] == was[n])
  {}

  lemma {:induction false} SecretsDoneNext(list: seq<SecretPartial>, k: nat, group: string,
                                           before: map<string, SecretRow>,
                                           was: map<string, SecretRow>, now: map<string, SecretRow>)
    requires k < |list| && Distinct(SecretNames(list)) && SecretsDone(list, k, group, before, was)
    requires SecretDone(list[k], group, before, now)
    requires now.Keys == was.Keys + {list[k].name} && forall n | n in was && n != list[k].name :: now[n] == was[n]
    ensures SecretsDone(list, k + 1, group, before, now)
  {
    var names := SecretNames(list);
    forall j | 0 <= j < k ensures SecretDone(list[j], group, before, now) {
      assert names[j] != names[k];
      assert SecretDone(list[j], group, before, was);
    }
  }

  lemma {:induction false} SecretsStep(r: Run, group: string, list: seq<SecretPartial>, reply: Reply, k: nat,
                                       before: map<string, SecretRow>)
    requires k < |list| && Distinct(SecretNames(list)) && SecretsDone(list, k, group, before, r.server.secrets)
    requires SecretApplied(r, group, list[k], reply).end.Completed?
    ensures var r1 := SecretApplied(r, group, list[k], reply);
            && SecretsDone(list, k + 1, group, before, r1.server.secrets)
            && r1.server.cargoes == r.server.cargoes && r1.server.jobs == r.server.jobs
  {
    NewName(SecretNames(list), k);
    SecretStep(r, group, list[k], reply, before);
    SecretsDoneNext(list, k, group, before, r.server.secrets,
                    SecretApplied(r, group, list[k], reply).server.secrets);
  }

  lemma {:induction false} SecretsFollow(r: Run, group: string, list: seq<SecretPartial>, replies: Replies, k: nat,
                                         before: map<string, SecretRow>)
    requires k <= |list| && Distinct(SecretNames(list)) && SecretsDone(list, k, group, before, r.server.secrets)
    requires SecretsFrom(r, group, list, replies, k).end.Completed?
    ensures var r' := SecretsFrom(r, group, list, replies, k);
            && SecretsDone(list, |list|, group, before, r'.server.secrets)
            && r'.server.cargoes == r.server.cargoes && r'.server.jobs == r.server.jobs
    decreases |list| - k
  {
    if k < |list| {
      var r1 := SecretApplied(r, group, list[k], replies(k));
      assert r1.end.Completed?;
      SecretsStep(r, group, list, replies(k), k, before);
      SecretsFollow(r1, group, list, replies, k + 1, before);
    }
  }

  /** Jobs that are there stay, every job of the list is there, and all of them could be labelled. */
  lemma {:induction false} JobsFollow(r: Run, group: string, list: seq<JobPartial>, deletions: Replies,
                                      replies: Replies, k: nat)
    requires k <= |list| && JobsFrom(r, group, list, deletions, replies, k).end.Completed?
    ensures forall n :: n in JobsFrom(r, group, list, deletions, replies, k).server.jobs
                        <==> n in r.server.jobs || n in JobNames(list)[k..]
    ensures forall j | k <= j < |list| :: InsertGroup(list[j].metadata, group).Some?
    decreases |list| - k
  {
    if k < |list| {
      var r1 := JobApplied(r, group, list[k], deletions(k), replies(k));
      assert r1.end.Completed?;
      JobsFollow(r1, group, list, deletions, replies, k + 1);
      assert JobNames(list)[k..] == [list[k].name] + JobNames(list)[k + 1..];
    }
  }

  lemma {:induction false} JobsKeepTheRest(r: Run, group: string, list: seq<JobPartial>, deletions: Replies,
                                           replies: Replies, k: nat)
    requires k <= |list|
    ensures var r' := JobsFrom(r, group, list, deletions, replies, k);
            r'.server.secrets == r.server.secrets && r'.server.cargoes == r.server.cargoes
    decreases |list| - k
  {
    if k < |list| && r.end.Completed? {
      JobsKeepTheRest(JobApplied(r, group, list[k], deletions(k), replies(k)), group, list, deletions, replies, k + 1);
    }
  }

  /** Keys of the first `k` cargoes. */
  function FirstKeys(namespace: string, list: seq<CargoSpecPartial>, k: nat): set<string>
    requires k <= |list|
  {
    if k == 0 then {} else FirstKeys(namespace, list, k - 1) + {KeyOf(namespace, list[k - 1].name)}
  }

  /** Only cargoes named among the first `k` differ from `before`, and those have been applied. */
  ghost predicate CargoesDone(list: seq<CargoSpecPartial>, k: nat, group: string, namespace: string,
                              before: map<string, CargoRow>, now: map<string, CargoRow>)
    requires k <= |list|
  {
    && before.Keys <= now.Keys
    && (forall j | 0 <= j < k :: CargoDone(list[j], group, namespace, now))
    && (forall key | key in now && key !in FirstKeys(namespace, list, k) :: key in before && now[key] == before[key])
    && (forall key | key in now :: now[key].namespace == if key in before then before[key].namespace else namespace)
  }

  lemma {:induction false} KeysDiffer(namespace: string, m: string, n: string)
    requires m != n
    ensures KeyOf(namespace, m) != KeyOf(namespace, n)
  {
    var d := |namespace| + 1;
    var a, b := KeyOf(namespace, m), KeyOf(namespace, n);
    assert a[..|a| - d] == m && b[..|b| - d] == n;
  }

  lemma {:induction false} CargoStep(r: Run, group: string, namespace: string, reload: bool, c: CargoSpecPartial,
                                     reply: Reply)
    requires CargoApplied(r, group, namespace, reload, c, reply).end.Completed?
    ensures var now, was := CargoApplied(r, group, namespace, reload, c, reply).server.cargoes, r.server.cargoes;
            var key := KeyOf(namespace, c.name);
            && CargoDone(c, group, namespace, now)
            && now.Keys == was.Keys + {key}
            && (forall k | k in was && k != key :: now[k] == was[k])
            && now[key].namespace == (if key in was then was[key].namespace else namespace)
  {}

  lemma {:induction false} CargoStays(list: seq<CargoSpecPartial>, j: nat, k: nat, group: string, namespace: string,
                                      was: map<string, CargoRow>, now: map<string, CargoRow>)
    requires j < k < |list| && Distinct(CargoNames(list)) && CargoDone(list[j], group, namespace, was)
    requires was.Keys <= now.Keys && forall i | i in was && i != KeyOf(namespace, list[k].name) :: now[i] == was[i]
    ensures CargoDone(list[j], group, namespace, now)
  {
    var names := CargoNames(list);
    assert names[j] != names[k];
    KeysDiffer(namespace, list[j].name, list[k].name);
  }

  lemma {:induction false} CargoesDoneNext(list: seq<CargoSpecPartial>, k: nat, group: string, namespace: string,
                                           before: map<string, CargoRow>, was: map<string, CargoRow>,
                                           now: map<string, CargoRow>)
    requires k < |list| && Distinct(CargoNames(list)) && CargoesDone(list, k, group, namespace, before, was)
    requires CargoDone(list[k], group, namespace, now)
    requires var key := KeyOf(namespace, list[k].name);
             && now.Keys == was.Keys + {key} && (forall i | i in was && i != key :: now[i] == was[i])
             && now[key].namespace == (if key in was then was[key].namespace else namespace)
    ensures CargoesDone(list, k + 1, group, namespace, before, now)
  {
    forall j | 0 <= j < k + 1 ensures CargoDone(list[j], group, namespace, now) {
      if j < k { CargoStays(list, j, k, group, namespace, was, now); }
    }
  }

  lemma {:induction false} CargoesStep(r: Run, group: string, namespace: string, reload: bool,
                                       list: seq<CargoSpecPartial>,
                                       reply: Reply, k: nat, before: map<string, CargoRow>)
    requires k < |list| && Distinct(CargoNames(list))
            && CargoesDone(list, k, group, namespace, before, r.server.cargoes)
    requires CargoApplied(r, group, namespace, reload, list[k], reply).end.Completed?
    ensures var r1 := CargoApplied(r, group, namespace, reload, list[k], reply);
            && CargoesDone(list, k + 1, group, namespace, before, r1.server.cargoes)
            && r1.server.secrets == r.server.secrets && r1.server.jobs == r.server.jobs
  {
    CargoStep(r, group, namespace, reload, list[k], reply);
    CargoesDoneNext(list, k, group, namespace, before, r.server.cargoes,
                    CargoApplied(r, group, namespace, reload, list[k], reply).server.cargoes);
  }

  lemma {:induction false} CargoesFollow(r: Run, group: string, namespace: string, reload: bool,
                                         list: seq<CargoSpecPartial>,
                                         replies: Replies, k: nat, before: map<string, CargoRow>)
    requires k <= |list| && Distinct(CargoNames(list))
            && CargoesDone(list, k, group, namespace, before, r.server.cargoes)
    requires CargoesFrom(r, group, namespace, reload, list, replies, k).end.Completed?
    ensures var r' := CargoesFrom(r, group, namespace, reload, list, replies, k);
            && CargoesDone(list, |list|, group, namespace, before, r'.server.cargoes)
            && r'.server.secrets == r.server.secrets && r'.server.jobs == r.server.jobs
    decreases |list| - k
  {
    if k < |list| {
      StopsWhenFailed(r, group, namespace, reload, list, replies, k);
      CargoesStep(r, group, namespace, reload, list, replies(k), k, before);
      CargoesFollow(CargoApplied(r, group, namespace, reload, list[k], replies(k)), group, namespace, reload, list,
                    replies, k + 1, before);
    }
  }

  lemma {:induction false} StopsWhenFailed(r: Run, group: string, namespace: string, reload: bool,
                                           list: seq<CargoSpecPartial>,
                                           replies: Replies, k: nat)
    requires k < |list| && CargoesFrom(r, group, namespace, reload, list, replies, k).end.Completed?
    ensures r.end.Completed? && CargoApplied(r, group, namespace, reload, list[k], replies(k)).end.Completed?
  {}

  predicate UniqueNames(file: File) {
    && Distinct(SecretNames(GetOr(file.secrets, [])))
    && Distinct(CargoNames(GetOr(file.cargoes, [])))
  }

  /** An apply that completes has put everything in place. */
  lemma {:induction false} ApplyAchieves(r: Run, file: File, reload: bool, answers: Answers)
    requires UniqueNames(file) && Applied(r, file, reload, answers).end.Completed?
    ensures var now, secrets, cargoes :=
          Applied(r, file, reload, answers).server, GetOr(file.secrets, []), GetOr(file.cargoes, []);
            && SecretsDone(secrets, |secrets|, GroupOf(file), r.server.secrets, now.secrets)
            && CargoesDone(cargoes, |cargoes|, GroupOf(file), NamespaceOf(file), r.server.cargoes, now.cargoes)
            && (forall n :: n in now.jobs <==> n in r.server.jobs || n in JobNames(GetOr(file.jobs, [])))
            && (forall j | 0 <= j < |GetOr(file.jobs, [])| ::
                  var m := GetOr(file.jobs, [])[j].metadata; m.None? || m.value.JObj?)
  {
    var group, secrets, jobs, cargoes :=
          GroupOf(file), GetOr(file.secrets, []), GetOr(file.jobs, []), GetOr(file.cargoes, []);
    var r1 := SecretsFrom(r, group, secrets, answers.secrets, 0);
    var r2 := JobsFrom(r1, group, jobs, answers.jobDeletions, answers.jobs, 0);
    EndsStick(r1, file, reload, answers);
    SecretsFollow(r, group, secrets, answers.secrets, 0, r.server.secrets);
    JobsKeepTheRest(r1, group, jobs, answers.jobDeletions, answers.jobs, 0);
    JobsFollow(r1, group, jobs, answers.jobDeletions, answers.jobs, 0);
    assert JobNames(jobs)[0..] == JobNames(jobs);
    CargoesFollow(r2, group, NamespaceOf(file), reload, cargoes, answers.cargoes, 0, r.server.cargoes);
  }

  /** A section that fails ends the apply. */
  lemma {:induction false} EndsStick(r1: Run, file: File, reload: bool, answers: Answers)
    ensures var r2 := JobsFrom(r1, GroupOf(file), GetOr(file.jobs, []), answers.jobDeletions, answers.jobs, 0);
            var r3 := CargoesFrom(r2, GroupOf(file), NamespaceOf(file), reload, GetOr(file.cargoes, []),
                                  answers.cargoes, 0);
            && (!r1.end.Completed? ==> r2 == r1)
            && (!r2.end.Completed? ==> r3 == r2)
  {}

  // ---------------------------------------------------------------- the second apply

  predicate CargoWrite(q: Request) { q.CreateCargo? || q.PutCargo? || (q.Delete? && q.target.Cargoes?) }

  predicate NoCargoWrites(sent: seq<Request>) { forall k | 0 <= k < |sent| :: !CargoWrite(sent[k]) }

  /** Did the secret exist before with another kind or immutable flag? */
  predicate Stuck(s: SecretPartial, before: map<string, SecretRow>) {
    s.name in before && (before[s.name].kind != s.kind || before[s.name].immutable != s.immutable)
  }

  function Repatched(list: seq<SecretPartial>, before: map<string, SecretRow>, k: nat): seq<Request>
    requires k <= |list|
    decreases |list| - k
  {
    if k == |list| then []
    else (if Stuck(list[k], before) then [PatchSecret(list[k].name)] else []) + Repatched(list, before, k + 1)
  }

  lemma {:induction false} SecretAgain(r: Run, group: string, s: SecretPartial, reply: Reply,
                                       before: map<string, SecretRow>)
    requires r.end.Completed? && SecretDone(s, group, before, r.server.secrets)
    ensures var r' := SecretApplied(r, group, s, reply);
            && r'.server == r.server
            && r'.sent == r.sent + (if Stuck(s, before) then [PatchSecret(s.name)] else [])
            && (r'.end.Completed? <==> !Stuck(s, before) || reply.Fine?)
  {
    var m, row := InsertGroup(s.metadata, group), r.server.secrets[s.name];
    assert row.(metadata := m, data := s.data) == row;
    assert r.server.secrets[s.name := row] == r.server.secrets;
    assert AsPartial(s.name, row) == s.(metadata := m) <==> !Stuck(s, before);
    assert r.sent + [] == r.sent;
  }

  lemma {:induction false} SecretsAgain(r: Run, group: string, list: seq<SecretPartial>, replies: Replies, k: nat,
                                        before: map<string, SecretRow>) returns (tail: seq<Request>)
    requires k <= |list| && r.end.Completed?
    requires forall j | 0 <= j < |list| :: SecretDone(list[j], group, before, r.server.secrets)
    ensures var r' := SecretsFrom(r, group, list, replies, k);
            && r'.server == r.server && r'.sent == r.sent + tail && NoCargoWrites(tail)
            && tail <= Repatched(list, before, k) && (r'.end.Completed? ==> tail == Repatched(list, before, k))
    decreases |list| - k
  {
    tail := [];
    if k < |list| {
      var r1 := SecretApplied(r, group, list[k], replies(k));
      SecretAgain(r, group, list[k], replies(k), before);
      tail := if Stuck(list[k], before) then [PatchSecret(list[k].name)] else [];
      if r1.end.Completed? {
        var rest := SecretsAgain(r1, group, list, replies, k + 1, before);
        tail := tail + rest;
      }
    }
  }

  /** What recreating the jobs from position `k` on takes. */
  function Recreated(list: seq<JobPartial>, k: nat): seq<Request>
    requires k <= |list|
    decreases |list| - k
  {
    if k == |list| then [] else [Delete(Jobs, list[k].name), CreateJob(list[k].name)] + Recreated(list, k + 1)
  }

  lemma {:induction false} JobAgain(r: Run, group: string, j: JobPartial, deletion: Reply, reply: Reply)
    returns (tail: seq<Request>)
    requires r.end.Completed? && j.name in r.server.jobs && InsertGroup(j.metadata, group).Some?
    ensures var r1 := JobApplied(r, group, j, deletion, reply);
            && r1.sent == r.sent + tail && tail <= [Delete(Jobs, j.name), CreateJob(j.name)]
            && (r1.end.Completed? ==> |tail| == 2 && r1.server == r.server)
  {
    tail := if deletion.Fine? then [Delete(Jobs, j.name), CreateJob(j.name)] else [Delete(Jobs, j.name)];
    var r1 := JobApplied(r, group, j, deletion, reply);
    assert r.sent + [Delete(Jobs, j.name)] + [CreateJob(j.name)] == r.sent + [Delete(Jobs, j.name), CreateJob(j.name)];
    if r1.end.Completed? {
      assert r.server.jobs - {j.name} + {j.name} == r.server.jobs;
    }
  }

  /** Jobs that exist are deleted and created again, one after the other, until something fails. */
  lemma {:induction false} JobsAgain(r: Run, group: string, list: seq<JobPartial>, deletions: Replies, replies: Replies,
                                     k: nat)
    returns (tail: seq<Request>)
    requires k <= |list| && r.end.Completed?
    requires forall j | 0 <= j < |list| :: list[j].name in r.server.jobs && InsertGroup(list[j].metadata, group).Some?
    ensures var r' := JobsFrom(r, group, list, deletions, replies, k);
            && r'.sent == r.sent + tail && tail <= Recreated(list, k)
            && (r'.end.Completed? ==> tail == Recreated(list, k) && r'.server == r.server)
    decreases |list| - k
  {
    tail := [];
    if k < |list| {
      var r1 := JobApplied(r, group, list[k], deletions(k), replies(k));
      tail := JobAgain(r, group, list[k], deletions(k), replies(k));
      if r1.end.Completed? {
        var rest := JobsAgain(r1, group, list, deletions, replies, k + 1);
        assert tail == [Delete(Jobs, list[k].name), CreateJob(list[k].name)];
        assert r.sent + tail + rest == r.sent + (tail + rest);
        tail := tail + rest;
      }
    }
  }

  lemma {:induction false} RecreatingTouchesNoCargo(list: seq<JobPartial>, k: nat)
    requires k <= |list|
    ensures NoCargoWrites(Recreated(list, k))
    decreases |list| - k
  {
    if k < |list| { RecreatingTouchesNoCargo(list, k + 1); }
  }

  lemma {:induction false} CargoesAgain(r: Run, group: string, namespace: string, list: seq<CargoSpecPartial>,
                                        replies: Replies, k: nat)
    requires k <= |list| && forall j | 0 <= j < |list| :: CargoDone(list[j], group, namespace, r.server.cargoes)
    ensures CargoesFrom(r, group, namespace, false, list, replies, k) == r
    decreases |list| - k
  {
    if k < |list| && r.end.Completed? {
      assert CargoApplied(r, group, namespace, false, list[k], replies(k)) == r;
      CargoesAgain(r, group, namespace, list, replies, k + 1);
    }
  }

  /** Everything the file names is in place. */
  ghost predicate InPlace(file: File, before: map<string, SecretRow>, now: Server) {
    && (forall j | 0 <= j < |GetOr(file.secrets, [])| ::
          SecretDone(GetOr(file.secrets, [])[j], GroupOf(file), before, now.secrets))
    && (forall j | 0 <= j < |GetOr(file.jobs, [])| ::
          && GetOr(file.jobs, [])[j].name in now.jobs
          && InsertGroup(GetOr(file.jobs, [])[j].metadata, GroupOf(file)).Some?)
    && (forall j | 0 <= j < |GetOr(file.cargoes, [])| ::
          CargoDone(GetOr(file.cargoes, [])[j], GroupOf(file), NamespaceOf(file), now.cargoes))
  }

  lemma {:induction false} AppliedIsInPlace(r: Run, file: File, reload: bool, answers: Answers)
    requires UniqueNames(file) && Applied(r, file, reload, answers).end.Completed?
    ensures InPlace(file, r.server.secrets, Applied(r, file, reload, answers).server)
  {
    ApplyAchieves(r, file, reload, answers);
    var jobs := GetOr(file.jobs, []);
    forall j | 0 <= j < |jobs| ensures jobs[j].name in Applied(r, file, reload, answers).server.jobs {
      assert JobNames(jobs)[j] in JobNames(jobs);
    }
  }

  function Expected(file: File, before: map<string, SecretRow>): seq<Request> {
    Repatched(GetOr(file.secrets, []), before, 0) + Recreated(GetOr(file.jobs, []), 0)
  }

  /** An apply without reload of a file that is in place. */
  lemma {:induction false} ApplyInPlace(server: Server, file: File, before: map<string, SecretRow>, answers: Answers)
    requires InPlace(file, before, server)
    ensures var again := Applied(Run(server, [], Completed), file, false, answers);
            && NoCargoWrites(again.sent) && again.sent <= Expected(file, before)
            && again.server.secrets == server.secrets && again.server.cargoes == server.cargoes
            && (again.end.Completed? ==> again.sent == Expected(file, before) && again.server == server)
  {
    var group, jobs := GroupOf(file), GetOr(file.jobs, []);
    var r0 := Run(server, [], Completed);
    var r1 := SecretsFrom(r0, group, GetOr(file.secrets, []), answers.secrets, 0);
    var r2 := JobsFrom(r1, group, jobs, answers.jobDeletions, answers.jobs, 0);
    var patches := SecretsAgain(r0, group, GetOr(file.secrets, []), answers.secrets, 0, before);
    assert r1.sent == patches by { assert [] + patches == patches; }
    EndsStick(r1, file, false, answers);
    JobsKeepTheRest(r1, group, jobs, answers.jobDeletions, answers.jobs, 0);
    RecreatingTouchesNoCargo(jobs, 0);
    CargoesAgain(r2, group, NamespaceOf(file), GetOr(file.cargoes, []), answers.cargoes, 0);
    if r1.end.Completed? {
      var rest := JobsAgain(r1, group, jobs, answers.jobDeletions, answers.jobs, 0);
      assert r2.sent == patches + rest;
    }
  }

  /** After an apply that completed, applying the same file again without reload sends no write for any
      cargo and changes no secret or cargo, however its requests end.  What it sends is, as far as it gets, a
      patch for each secret that existed before the first apply with another kind or immutable flag (which
      patches never change, so this repeats for ever), followed by a deletion and a creation of each job; if
      it completes it sends exactly that. */
  lemma {:induction false} SecondApply(r: Run, file: File, reload: bool, first: Answers, second: Answers)
    requires UniqueNames(file) && Applied(r, file, reload, first).end.Completed?
    ensures var done := Applied(r, file, reload, first);
            var again := Applied(Run(done.server, [], Completed), file, false, second);
            var patches := Repatched(GetOr(file.secrets, []), r.server.secrets, 0);
            var expected := patches + Recreated(GetOr(file.jobs, []), 0);
            && NoCargoWrites(again.sent) && again.sent <= expected
            && again.server.secrets == done.server.secrets && again.server.cargoes == done.server.cargoes
            && (again.end.Completed? ==> again.sent == expected && again.server == done.server)
  {
    AppliedIsInPlace(r, file, reload, first);
    ApplyInPlace(Applied(r, file, reload, first).server, file, r.server.secrets, second);
  }
}
