/** What an apply sends, request by request, and where each of the daemon's answers stops it. */
module ApplyTrace {
  import opened Options
  import opened Specs
  import opened StateApply
  import opened Convergence

  /** The client can add the group label. */
  predicate Plain(m: Option<Json>) { m.None? || m.value.JObj? }

  // ---------------------------------------------------------------- what each object takes, seen from the start

  predicate SecretUpToDate(s: SecretPartial, group: string, row: SecretRow) {
    row.kind == s.kind && row.immutable == s.immutable && row.data == s.data
    && IsLabelled(row.metadata, s.metadata, group)
  }

  predicate CargoUpToDate(c: CargoSpecPartial, group: string, row: CargoRow) {
    row.spec == c.(metadata := row.spec.metadata) && IsLabelled(row.spec.metadata, c.metadata, group)
  }

  function SecretSends(s: SecretPartial, group: string, before: map<string, SecretRow>): seq<Request> {
    if s.name !in before then [CreateSecret(s.name)]
    else if SecretUpToDate(s, group, before[s.name]) then [] else [PatchSecret(s.name)]
  }

  function JobSends(name: string, present: bool): seq<Request> {
    if present then [Delete(Jobs, name), CreateJob(name)] else [CreateJob(name)]
  }

  function CargoSends(c: CargoSpecPartial, group: string, namespace: string, reload: bool,
                      before: map<string, CargoRow>): seq<Request> {
    var key := c.name + "." + namespace;
    if key !in before then [CreateCargo(namespace, c.name)]
    else if !reload && CargoUpToDate(c, group, before[key]) then [] else [PutCargo(namespace, c.name)]
  }

  /** The requests of the first `n` objects of a section. */
  function SecretPlan(list: seq<SecretPartial>, n: nat, group: string, before: map<string, SecretRow>): seq<Request>
    requires n <= |list|
  {
    if n == 0 then [] else SecretPlan(list, n - 1, group, before) + SecretSends(list[n - 1], group, before)
  }

  /** A job is present when it was there before or is named earlier in the section. */
  function JobPlan(names: seq<string>, n: nat, before: set<string>): seq<Request>
    requires n <= |names|
  {
    if n == 0 then []
    else
      JobPlan(names, n - 1, before)
      + JobSends(names[n - 1], names[n - 1] in before || names[n - 1] in names[..n - 1])
  }

  function CargoPlan(list: seq<CargoSpecPartial>, n: nat, group: string, namespace: string, reload: bool,
                     before: map<string, CargoRow>): seq<Request>
    requires n <= |list|
  {
    if n == 0 then []
    else CargoPlan(list, n - 1, group, namespace, reload, before)
         + CargoSends(list[n - 1], group, namespace, reload, before)
  }

  // ---------------------------------------------------------------- secrets

  /** How the secrets section ends, at position `p`: after the whole list; or before a secret that cannot be
      labelled; or at a request that was not accepted, whose effect is there unless it was refused. */
  ghost predicate SecretsEnd(list: seq<SecretPartial>, p: nat, group: string, replies: Replies,
                             before: map<string, SecretRow>, base: seq<Request>, r: Run) {
    match r.end
    case Completed =>
      p == |list| && SecretsDone(list, p, group, before, r.server.secrets)
      && r.sent == base + SecretPlan(list, p, group, before)
    case Panicked =>
      p < |list| && !Plain(list[p].metadata) && SecretsDone(list, p, group, before, r.server.secrets)
      && r.sent == base + SecretPlan(list, p, group, before)
    case Failed =>
      p < |list| && !replies(p).Fine? && SecretSends(list[p], group, before) != []
      && SecretsDone(list, if replies(p).Refused? then p else p + 1, group, before, r.server.secrets)
      && r.sent == base + SecretPlan(list, p + 1, group, before)
  }

  /** One secret, as the row there was before decides it. */
  lemma {:induction false} SecretStepSends(r: Run, group: string, s: SecretPartial, reply: Reply,
                                           before: map<string, SecretRow>)
    requires r.end.Completed?
    requires s.name in r.server.secrets <==> s.name in before
    requires s.name in before ==> r.server.secrets[s.name] == before[s.name]
    ensures var r' := SecretApplied(r, group, s, reply);
            && (r'.end.Panicked? <==> !Plain(s.metadata))
            && (r'.end.Panicked? ==> r'.server == r.server && r'.sent == r.sent)
            && (Plain(s.metadata) ==> r'.sent == r.sent + SecretSends(s, group, before))
            && (r'.end.Failed? <==> Plain(s.metadata) && SecretSends(s, group, before) != [] && !reply.Fine?)
            && (r'.end.Failed? && reply.Refused? ==> r'.server == r.server)
  {
    var m := InsertGroup(s.metadata, group);
    LabelIff(m, s.metadata, group);
    if s.name in before {
      LabelIff(before[s.name].metadata, s.metadata, group);
      assert AsPartial(s.name, before[s.name]) == s.(metadata := m) <==>
          m == before[s.name].metadata && before[s.name].kind == s.kind && before[s.name].immutable == s.immutable
          && before[s.name].data == s.data;
    }
    assert r.sent + [] == r.sent;
  }

  /** What an accepted request leaves does not depend on whether the wait that follows succeeds. */
  lemma {:induction false} SecretAccepted(r: Run, group: string, s: SecretPartial, reply: Reply,
                                          before: map<string, SecretRow>)
    requires r.end.Completed? && Plain(s.metadata)
    requires !reply.Refused? || SecretSends(s, group, before) == []
    requires s.name in r.server.secrets <==> s.name in before
    requires s.name in before ==> r.server.secrets[s.name] == before[s.name]
    ensures var now, was := SecretApplied(r, group, s, reply).server.secrets, r.server.secrets;
            && SecretDone(s, group, before, now)
            && now.Keys == was.Keys + {s.name}
            && (forall n | n in was && n != s.name :: now[n] == was[n])
  {
    SecretStepSends(r, group, s, reply, before);
    SecretStepSends(r, group, s, Fine, before);
    SecretStep(r, group, s, Fine, before);
    assert SecretApplied(r, group, s, reply).server == SecretApplied(r, group, s, Fine).server;
  }

  lemma {:induction false} SecretsNext(r: Run, group: string, list: seq<SecretPartial>, replies: Replies, k: nat,
                                       before: map<string, SecretRow>, base: seq<Request>)
    requires k < |list| && Distinct(SecretNames(list)) && r.end.Completed?
    requires SecretsDone(list, k, group, before, r.server.secrets)
    requires r.sent == base + SecretPlan(list, k, group, before)
    ensures var r1 := SecretApplied(r, group, list[k], replies(k));
            if r1.end.Completed? then
              && SecretsDone(list, k + 1, group, before, r1.server.secrets)
              && r1.sent == base + SecretPlan(list, k + 1, group, before)
            else SecretsEnd(list, k, group, replies, before, base, r1)
  {
    NewName(SecretNames(list), k);
    var r1 := SecretApplied(r, group, list[k], replies(k));
    SecretStepSends(r, group, list[k], replies(k), before);
    if Plain(list[k].metadata) {
      if !r1.end.Failed? || !replies(k).Refused? {
        SecretAccepted(r, group, list[k], replies(k), before);
        SecretsDoneNext(list, k, group, before, r.server.secrets, r1.server.secrets);
      }
      assert r1.sent == base + SecretPlan(list, k + 1, group, before);
    }
  }

  lemma {:induction false} SecretsTrace(r: Run, group: string, list: seq<SecretPartial>, replies: Replies, k: nat,
                                        before: map<string, SecretRow>, base: seq<Request>) returns (p: nat)
    requires k <= |list| && Distinct(SecretNames(list)) && r.end.Completed?
    requires SecretsDone(list, k, group, before, r.server.secrets)
    requires r.sent == base + SecretPlan(list, k, group, before)
    ensures SecretsEnd(list, p, group, replies, before, base, SecretsFrom(r, group, list, replies, k))
    decreases |list| - k
  {
    p := k;
    if k < |list| {
      SecretsNext(r, group, list, replies, k, before, base);
      var r1 := SecretApplied(r, group, list[k], replies(k));
      if r1.end.Completed? {
        p := SecretsTrace(r1, group, list, replies, k + 1, before, base);
      } else {
        assert SecretsFrom(r1, group, list, replies, k + 1) == r1;
      }
    }
  }

  // ---------------------------------------------------------------- jobs

  /** The jobs there are when the first `n` of the section have been applied. */
  function JobsAfter(names: seq<string>, n: nat, before: set<string>): set<string>
    requires n <= |names|
  {
    before + FirstNames(names, n)
  }

  /** How the jobs section ends: as for secrets, but a job takes up to two requests, and the first of them that is
      not accepted ends the section. */
  ghost predicate JobsEnd(list: seq<JobPartial>, p: nat, deletions: Replies, replies: Replies, before: set<string>,
                          base: seq<Request>, r: Run) {
    var names := JobNames(list);
    && p <= |list|
    && var was := JobsAfter(names, p, before);
       match r.end
       case Completed => p == |list| && r.server.jobs == was && r.sent == base + JobPlan(names, p, before)
       case Panicked =>
         p < |list| && !Plain(list[p].metadata) && r.server.jobs == was && r.sent == base + JobPlan(names, p, before)
       case Failed =>
         && p < |list|
         && if names[p] in was && !deletions(p).Fine? then
              && r.server.jobs == (if deletions(p).Refused? then was else was - {names[p]})
              && r.sent == base + JobPlan(names, p, before) + [Delete(Jobs, names[p])]
            else
              && !replies(p).Fine?
              && r.server.jobs == (if replies(p).Refused? then was - {names[p]} else was + {names[p]})
              && r.sent == base + JobPlan(names, p + 1, before)
  }

  lemma {:induction false} JobStepSends(r: Run, group: string, j: JobPartial, deletion: Reply, reply: Reply)
    requires r.end.Completed?
    ensures var r', present := JobApplied(r, group, j, deletion, reply), j.name in r.server.jobs;
            && (!Plain(j.metadata) ==> r' == r.(end := Panicked))
            && (Plain(j.metadata) && present && !deletion.Fine? ==>
                  && r'.end.Failed? && r'.sent == r.sent + [Delete(Jobs, j.name)]
                  && r'.server.jobs == if deletion.Refused? then r.server.jobs else r.server.jobs - {j.name})
            && (Plain(j.metadata) && (present ==> deletion.Fine?) ==>
                  && r'.end == (if reply.Fine? then Completed else Failed)
                  && r'.sent == r.sent + JobSends(j.name, present)
                  && r'.server.jobs == if reply.Refused? then r.server.jobs - {j.name} else r.server.jobs + {j.name})
  {
    LabelIff(None, j.metadata, group);
    assert r.server.jobs - {j.name} + {j.name} == r.server.jobs + {j.name};
    if j.name !in r.server.jobs { assert r.server.jobs - {j.name} == r.server.jobs; }
    assert r.sent + [Delete(Jobs, j.name)] + [CreateJob(j.name)] == r.sent + [Delete(Jobs, j.name), CreateJob(j.name)];
  }

  lemma {:induction false} JobPlanNext(names: seq<string>, n: nat, before: set<string>, base: seq<Request>)
    requires n < |names|
    ensures base + JobPlan(names, n + 1, before)
            == base + JobPlan(names, n, before) + JobSends(names[n], names[n] in JobsAfter(names, n, before))
  {
    FirstNamesAre(names, n);
  }

  lemma {:induction false} JobsTrace(r: Run, group: string, list: seq<JobPartial>, deletions: Replies,
                                     replies: Replies, k: nat, before: set<string>, base: seq<Request>)
    returns (p: nat)
    requires k <= |list| && r.end.Completed?
    requires r.server.jobs == JobsAfter(JobNames(list), k, before)
    requires r.sent == base + JobPlan(JobNames(list), k, before)
    ensures JobsEnd(list, p, deletions, replies, before, base, JobsFrom(r, group, list, deletions, replies, k))
    decreases |list| - k
  {
    p := k;
    if k < |list| {
      var names := JobNames(list);
      var r1 := JobApplied(r, group, list[k], deletions(k), replies(k));
      JobStepSends(r, group, list[k], deletions(k), replies(k));
      JobPlanNext(names, k, before, base);
      if r1.end.Completed? {
        assert JobsAfter(names, k + 1, before) == JobsAfter(names, k, before) + {names[k]};
        p := JobsTrace(r1, group, list, deletions, replies, k + 1, before, base);
      } else {
        assert JobsFrom(r, group, list, deletions, replies, k) == r1;
      }
    }
  }

  // ---------------------------------------------------------------- cargoes

  /** How the cargoes section ends: as for secrets. */
  ghost predicate CargoesEnd(list: seq<CargoSpecPartial>, p: nat, group: string, namespace: string, reload: bool,
                             replies: Replies, before: map<string, CargoRow>, base: seq<Request>, r: Run) {
    match r.end
    case Completed =>
      p == |list| && CargoesDone(list, p, group, namespace, before, r.server.cargoes)
      && r.sent == base + CargoPlan(list, p, group, namespace, reload, before)
    case Panicked =>
      p < |list| && !Plain(list[p].metadata) && CargoesDone(list, p, group, namespace, before, r.server.cargoes)
      && r.sent == base + CargoPlan(list, p, group, namespace, reload, before)
    case Failed =>
      p < |list| && !replies(p).Fine? && CargoSends(list[p], group, namespace, reload, before) != []
      && CargoesDone(list, if replies(p).Refused? then p else p + 1, group, namespace, before, r.server.cargoes)
      && r.sent == base + CargoPlan(list, p + 1, group, namespace, reload, before)
  }

  lemma {:induction false} CargoStepSends(r: Run, group: string, namespace: string, reload: bool, c: CargoSpecPartial,
                                          reply: Reply, before: map<string, CargoRow>)
    requires r.end.Completed?
    requires var key := KeyOf(namespace, c.name);
             && (key in r.server.cargoes <==> key in before)
             && (key in before ==> r.server.cargoes[key] == before[key])
    ensures var r' := CargoApplied(r, group, namespace, reload, c, reply);
            && (r'.end.Panicked? <==> !Plain(c.metadata))
            && (r'.end.Panicked? ==> r'.server == r.server && r'.sent == r.sent)
            && (Plain(c.metadata) ==> r'.sent == r.sent + CargoSends(c, group, namespace, reload, before))
            && (r'.end.Failed? <==>
                  Plain(c.metadata) && CargoSends(c, group, namespace, reload, before) != [] && !reply.Fine?)
            && (r'.end.Failed? && reply.Refused? ==> r'.server == r.server)
  {
    var m, key := InsertGroup(c.metadata, group), KeyOf(namespace, c.name);
    LabelIff(m, c.metadata, group);
    if key in before {
      var row := before[key];
      LabelIff(row.spec.metadata, c.metadata, group);
      assert row.spec == c.(metadata := m) <==>
          m == row.spec.metadata && row.spec == c.(metadata := row.spec.metadata);
    }
    assert r.sent + [] == r.sent;
  }

  lemma {:induction false} CargoAccepted(r: Run, group: string, namespace: string, reload: bool, c: CargoSpecPartial,
                                         reply: Reply, before: map<string, CargoRow>)
    requires r.end.Completed? && Plain(c.metadata)
    requires !reply.Refused? || CargoSends(c, group, namespace, reload, before) == []
    requires var key := KeyOf(namespace, c.name);
             && (key in r.server.cargoes <==> key in before)
             && (key in before ==> r.server.cargoes[key] == before[key])
    ensures var now, was := CargoApplied(r, group, namespace, reload, c, reply).server.cargoes, r.server.cargoes;
            var key := KeyOf(namespace, c.name);
            && CargoDone(c, group, namespace, now)
            && now.Keys == was.Keys + {key}
            && (forall k | k in was && k != key :: now[k] == was[k])
            && now[key].namespace == (if key in was then was[key].namespace else namespace)
  {
    CargoStepSends(r, group, namespace, reload, c, reply, before);
    CargoStepSends(r, group, namespace, reload, c, Fine, before);
    CargoStep(r, group, namespace, reload, c, Fine);
    assert CargoApplied(r, group, namespace, reload, c, reply).server
        == CargoApplied(r, group, namespace, reload, c, Fine).server;
  }

  lemma {:induction false} NewKey(list: seq<CargoSpecPartial>, namespace: string, k: nat, n: nat)
    requires n <= k < |list| && Distinct(CargoNames(list))
    ensures KeyOf(namespace, list[k].name) !in FirstKeys(namespace, list, n)
    decreases n
  {
    if n > 0 {
      NewKey(list, namespace, k, n - 1);
      assert CargoNames(list)[n - 1] != CargoNames(list)[k];
      KeysDiffer(namespace, list[n - 1].name, list[k].name);
    }
  }

  /** What is stored under the next cargo's key is still what there was before. */
  lemma {:induction false} CargoUntouched(list: seq<CargoSpecPartial>, k: nat, group: string, namespace: string,
                                          before: map<string, CargoRow>, now: map<string, CargoRow>)
    requires k < |list| && Distinct(CargoNames(list)) && CargoesDone(list, k, group, namespace, before, now)
    ensures var key := KeyOf(namespace, list[k].name);
            (key in now <==> key in before) && (key in before ==> now[key] == before[key])
  {
    NewKey(list, namespace, k, k);
  }

  lemma {:induction false} CargoesAccepted(r: Run, group: string, namespace: string, reload: bool,
                                           list: seq<CargoSpecPartial>, reply: Reply, k: nat,
                                           before: map<string, CargoRow>)
    requires k < |list| && Distinct(CargoNames(list)) && r.end.Completed? && Plain(list[k].metadata)
    requires CargoesDone(list, k, group, namespace, before, r.server.cargoes)
    requires !reply.Refused? || CargoSends(list[k], group, namespace, reload, before) == []
    ensures CargoesDone(list, k + 1, group, namespace, before,
                        CargoApplied(r, group, namespace, reload, list[k], reply).server.cargoes)
  {
    CargoUntouched(list, k, group, namespace, before, r.server.cargoes);
    CargoAccepted(r, group, namespace, reload, list[k], reply, before);
    CargoesDoneNext(list, k, group, namespace, before, r.server.cargoes,
                    CargoApplied(r, group, namespace, reload, list[k], reply).server.cargoes);
  }

  /** What one more cargo adds to the requests sent. */
  lemma {:induction false} CargoesSent(r: Run, group: string, namespace: string, reload: bool,
                                       list: seq<CargoSpecPartial>, reply: Reply, k: nat, before: map<string, CargoRow>,
                                       base: seq<Request>)
    requires k < |list| && Distinct(CargoNames(list)) && r.end.Completed?
    requires CargoesDone(list, k, group, namespace, before, r.server.cargoes)
    requires r.sent == base + CargoPlan(list, k, group, namespace, reload, before)
    ensures var r1 := CargoApplied(r, group, namespace, reload, list[k], reply);
            && (r1.end.Panicked? <==> !Plain(list[k].metadata))
            && (r1.end.Panicked? ==> r1.server == r.server && r1.sent == r.sent)
            && (Plain(list[k].metadata) ==>
                  r1.sent == base + CargoPlan(list, k + 1, group, namespace, reload, before))
            && (r1.end.Failed? ==> CargoSends(list[k], group, namespace, reload, before) != [] && !reply.Fine?)
            && (!r1.end.Failed? && Plain(list[k].metadata) && reply.Refused? ==>
                  CargoSends(list[k], group, namespace, reload, before) == [])
            && (r1.end.Failed? && reply.Refused? ==> r1.server == r.server)
  {
    CargoUntouched(list, k, group, namespace, before, r.server.cargoes);
    CargoStepSends(r, group, namespace, reload, list[k], reply, before);
  }

  lemma {:induction false} CargoesNext(r: Run, group: string, namespace: string, reload: bool,
                                       list: seq<CargoSpecPartial>, replies: Replies, k: nat,
                                       before: map<string, CargoRow>, base: seq<Request>)
    requires k < |list| && Distinct(CargoNames(list)) && r.end.Completed?
    requires CargoesDone(list, k, group, namespace, before, r.server.cargoes)
    requires r.sent == base + CargoPlan(list, k, group, namespace, reload, before)
    ensures var r1 := CargoApplied(r, group, namespace, reload, list[k], replies(k));
            if r1.end.Completed? then
              && CargoesDone(list, k + 1, group, namespace, before, r1.server.cargoes)
              && r1.sent == base + CargoPlan(list, k + 1, group, namespace, reload, before)
            else CargoesEnd(list, k, group, namespace, reload, replies, before, base, r1)
  {
    CargoesSent(r, group, namespace, reload, list, replies(k), k, before, base);
    var r1 := CargoApplied(r, group, namespace, reload, list[k], replies(k));
    if Plain(list[k].metadata) && (!r1.end.Failed? || !replies(k).Refused?) {
      CargoesAccepted(r, group, namespace, reload, list, replies(k), k, before);
    }
  }

  lemma {:induction false} CargoesTrace(r: Run, group: string, namespace: string, reload: bool,
                                        list: seq<CargoSpecPartial>, replies: Replies, k: nat,
                                        before: map<string, CargoRow>, base: seq<Request>) returns (p: nat)
    requires k <= |list| && Distinct(CargoNames(list)) && r.end.Completed?
    requires CargoesDone(list, k, group, namespace, before, r.server.cargoes)
    requires r.sent == base + CargoPlan(list, k, group, namespace, reload, before)
    ensures CargoesEnd(list, p, group, namespace, reload, replies, before, base,
                       CargoesFrom(r, group, namespace, reload, list, replies, k))
    decreases |list| - k
  {
    p := k;
    if k < |list| {
      CargoesNext(r, group, namespace, reload, list, replies, k, before, base);
      var r1 := CargoApplied(r, group, namespace, reload, list[k], replies(k));
      if r1.end.Completed? {
        p := CargoesTrace(r1, group, namespace, reload, list, replies, k + 1, before, base);
      } else {
        assert CargoesFrom(r1, group, namespace, reload, list, replies, k + 1) == r1;
      }
    }
  }

  // ---------------------------------------------------------------- the whole apply

  lemma {:induction false} SecretsKeepTheRest(r: Run, group: string, list: seq<SecretPartial>, replies: Replies, k: nat)
    requires k <= |list|
    ensures var r' := SecretsFrom(r, group, list, replies, k);
            r'.server.cargoes == r.server.cargoes && r'.server.jobs == r.server.jobs
    decreases |list| - k
  {
    if k < |list| && r.end.Completed? {
      SecretsKeepTheRest(SecretApplied(r, group, list[k], replies(k)), group, list, replies, k + 1);
    }
  }

  lemma {:induction false} CargoesKeepTheRest(r: Run, group: string, namespace: string, reload: bool,
                                              list: seq<CargoSpecPartial>, replies: Replies, k: nat)
    requires k <= |list|
    ensures var r' := CargoesFrom(r, group, namespace, reload, list, replies, k);
            r'.server.secrets == r.server.secrets && r'.server.jobs == r.server.jobs
    decreases |list| - k
  {
    if k < |list| && r.end.Completed? {
      CargoesKeepTheRest(CargoApplied(r, group, namespace, reload, list[k], replies(k)), group, namespace, reload, list,
                         replies, k + 1);
    }
  }

  datatype Section = InSecrets | InJobs | InCargoes

  function Group(file: File): string { if file.group.Some? then file.group.value else file.location }

  function Namespace(file: File): string { if file.namespace.Some? then file.namespace.value else "global" }

  function SecretRequests(file: File, before: Server): seq<Request> {
    var list := GetOr(file.secrets, []);
    SecretPlan(list, |list|, Group(file), before.secrets)
  }

  function JobRequests(file: File, before: Server): seq<Request> {
    var names := JobNames(GetOr(file.jobs, []));
    JobPlan(names, |names|, before.jobs)
  }

  /** The apply has ended at position `p` of a section: the sections before it are in place and their requests
      sent, those after it are untouched. */
  ghost predicate EndsIn(section: Section, p: nat, before: Server, file: File, reload: bool, answers: Answers, r: Run) {
    var secrets, jobs, cargoes := GetOr(file.secrets, []), GetOr(file.jobs, []), GetOr(file.cargoes, []);
    match section
    case InSecrets =>
      && SecretsEnd(secrets, p, Group(file), answers.secrets, before.secrets, [], r) && !r.end.Completed?
      && r.server.jobs == before.jobs && r.server.cargoes == before.cargoes
    case InJobs =>
      && SecretsDone(secrets, |secrets|, Group(file), before.secrets, r.server.secrets)
      && JobsEnd(jobs, p, answers.jobDeletions, answers.jobs, before.jobs, SecretRequests(file, before), r)
      && !r.end.Completed? && r.server.cargoes == before.cargoes
    case InCargoes =>
      && SecretsDone(secrets, |secrets|, Group(file), before.secrets, r.server.secrets)
      && r.server.jobs == JobsAfter(JobNames(jobs), |jobs|, before.jobs)
      && (forall j | 0 <= j < |jobs| :: Plain(jobs[j].metadata))
      && CargoesEnd(cargoes, p, Group(file), Namespace(file), reload, answers.cargoes, before.cargoes,
                    SecretRequests(file, before) + JobRequests(file, before), r)
  }

  /** What is left to apply after the jobs. */
  lemma {:induction false} CargoesPart(before: Server, file: File, reload: bool, answers: Answers, r: Run)
    returns (p: nat)
    requires UniqueNames(file) && r.end.Completed? && r.server.cargoes == before.cargoes
    requires r.sent == SecretRequests(file, before) + JobRequests(file, before)
    requires var secrets, jobs := GetOr(file.secrets, []), GetOr(file.jobs, []);
             && SecretsDone(secrets, |secrets|, Group(file), before.secrets, r.server.secrets)
             && r.server.jobs == JobsAfter(JobNames(jobs), |jobs|, before.jobs)
             && forall j | 0 <= j < |jobs| :: Plain(jobs[j].metadata)
    ensures EndsIn(InCargoes, p, before, file, reload, answers,
                   CargoesFrom(r, Group(file), Namespace(file), reload, GetOr(file.cargoes, []), answers.cargoes, 0))
  {
    var cargoes := GetOr(file.cargoes, []);
    CargoesKeepTheRest(r, Group(file), Namespace(file), reload, cargoes, answers.cargoes, 0);
    p := CargoesTrace(r, Group(file), Namespace(file), reload, cargoes, answers.cargoes, 0, before.cargoes, r.sent);
  }

  /** What is left to apply after the secrets. */
  lemma {:induction false} JobsPart(before: Server, file: File, reload: bool, answers: Answers, r: Run)
    returns (section: Section, p: nat)
    requires UniqueNames(file) && r.end.Completed? && r.sent == SecretRequests(file, before)
    requires r.server == before.(secrets := r.server.secrets, now := r.server.now)
    requires var secrets := GetOr(file.secrets, []);
             SecretsDone(secrets, |secrets|, Group(file), before.secrets, r.server.secrets)
    ensures var r2 := JobsFrom(r, Group(file), GetOr(file.jobs, []), answers.jobDeletions, answers.jobs, 0);
            EndsIn(section, p, before, file, reload, answers,
                   CargoesFrom(r2, Group(file), Namespace(file), reload, GetOr(file.cargoes, []), answers.cargoes, 0))
  {
    var jobs := GetOr(file.jobs, []);
    var r2 := JobsFrom(r, Group(file), jobs, answers.jobDeletions, answers.jobs, 0);
    JobsKeepTheRest(r, Group(file), jobs, answers.jobDeletions, answers.jobs, 0);
    p := JobsTrace(r, Group(file), jobs, answers.jobDeletions, answers.jobs, 0, before.jobs, r.sent);
    section := InJobs;
    if r2.end.Completed? {
      JobsFollow(r, Group(file), jobs, answers.jobDeletions, answers.jobs, 0);
      p := CargoesPart(before, file, reload, answers, r2);
      section := InCargoes;
    }
  }

  /** Whatever the daemon holds and answers, an apply sends exactly the requests that its objects take, in the
      file's order, up to the first that is not accepted or the first object that cannot be labelled; everything
      before that point is in place and everything after it untouched. */
  lemma {:induction false} ApplyEnds(before: Server, file: File, reload: bool, answers: Answers)
    returns (section: Section, p: nat)
    requires UniqueNames(file)
    ensures EndsIn(section, p, before, file, reload, answers,
                   Applied(Run(before, [], Completed), file, reload, answers))
  {
    var secrets := GetOr(file.secrets, []);
    var r0 := Run(before, [], Completed);
    var r1 := SecretsFrom(r0, Group(file), secrets, answers.secrets, 0);
    SecretsKeepTheRest(r0, Group(file), secrets, answers.secrets, 0);
    p := SecretsTrace(r0, Group(file), secrets, answers.secrets, 0, before.secrets, []);
    section := InSecrets;
    if r1.end.Completed? {
      assert r1.sent == SecretRequests(file, before);
      section, p := JobsPart(before, file, reload, answers, r1);
    } else {
      EndsStick(r1, file, reload, answers);
    }
  }

  predicate AllPlain(file: File) {
    && (forall j | 0 <= j < |GetOr(file.secrets, [])| :: Plain(GetOr(file.secrets, [])[j].metadata))
    && (forall j | 0 <= j < |GetOr(file.jobs, [])| :: Plain(GetOr(file.jobs, [])[j].metadata))
    && (forall j | 0 <= j < |GetOr(file.cargoes, [])| :: Plain(GetOr(file.cargoes, [])[j].metadata))
  }

  /** With every request accepted, the apply completes exactly when all metadata is absent or an object, and
      otherwise the client panics. */
  lemma {:induction false} AcceptedApply(before: Server, file: File, reload: bool, answers: Answers)
    requires UniqueNames(file)
    requires forall k :: answers.secrets(k).Fine? && answers.jobDeletions(k).Fine?
    requires forall k :: answers.jobs(k).Fine? && answers.cargoes(k).Fine?
    ensures Applied(Run(before, [], Completed), file, reload, answers).end
            == if AllPlain(file) then Completed else Panicked
  {
    var r := Applied(Run(before, [], Completed), file, reload, answers);
    var section, p := ApplyEnds(before, file, reload, answers);
    if r.end.Completed? {
      var secrets, cargoes := GetOr(file.secrets, []), GetOr(file.cargoes, []);
      forall j | 0 <= j < |secrets| ensures Plain(secrets[j].metadata) {
        assert SecretDone(secrets[j], Group(file), before.secrets, r.server.secrets);
      }
      forall j | 0 <= j < |cargoes| ensures Plain(cargoes[j].metadata) {
        assert CargoDone(cargoes[j], Group(file), Namespace(file), r.server.cargoes);
      }
    }
  }
}
