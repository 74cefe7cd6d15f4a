/** Applying a statefile: what the client sends to the daemon for secrets, jobs and cargoes, and the
    removal of objects that left the file. */
module StateApply {
  import opened Options
  import opened Specs

  // ---------------------------------------------------------------- files and tables

  datatype SecretPartial = SecretPartial(name: string, kind: string, immutable: bool, metadata: Option<Json>,
                                         data: Json)

  /** Of a job only the name and what the label is inserted into matter here. */
  datatype JobPartial = JobPartial(name: string, metadata: Option<Json>)

  datatype SecretRow = SecretRow(kind: string, immutable: bool, metadata: Option<Json>, data: Json, createdAt: nat)

  datatype CargoRow = CargoRow(namespace: string, spec: CargoSpecPartial, createdAt: nat)

  /** The part of a statefile that is applied here; a section may be absent. */
  datatype File = File(
    location: string,
    group: Option<string>,
    namespace: Option<string>,
    secrets: Option<seq<SecretPartial>>,
    jobs: Option<seq<JobPartial>>,
    cargoes: Option<seq<CargoSpecPartial>>)

  /** Secrets by name, cargoes by key, jobs by name; `now` is the time of the next creation. */
  datatype Server = Server(
    secrets: map<string, SecretRow>,
    cargoes: map<string, CargoRow>,
    jobs: set<string>,
    now: nat)

  datatype Target = Secrets | Jobs | Cargoes(namespace: string)

  datatype Request =
    | CreateSecret(name: string) | PatchSecret(name: string)
    | CreateJob(name: string)
    | CreateCargo(namespace: string, name: string) | PutCargo(namespace: string, name: string)
    | Delete(target: Target, name: string)

  /** How a write ends: accepted, refused without effect, or accepted but the state waited for never comes. */
  datatype Reply = Fine | Refused | Unanswered

  datatype End = Completed | Failed | Panicked

  datatype Run = Run(server: Server, sent: seq<Request>, end: End)

  const GROUP_KEY: string := "io.nanocl.group"

  function KeyOf(namespace: string, name: string): string { name + "." + namespace }

  function GroupOf(file: File): string { GetOr(file.group, file.location) }

  function NamespaceOf(file: File): string { GetOr(file.namespace, "global") }

  /** The metadata with the group label added; nothing when it is not an object, where the client panics. */
  function InsertGroup(metadata: Option<Json>, group: string): Option<Json> {
    match metadata
    case None => Some(JObj(map[GROUP_KEY := JStr(group)]))
    case Some(JObj(fields)) => Some(JObj(fields[GROUP_KEY := JStr(group)]))
    case _ => None
  }

  /** The metadata is that of the file, or an empty object, with the group label set and every other field kept. */
  predicate IsLabelled(m: Option<Json>, plain: Option<Json>, group: string) {
    && (plain.None? || plain.value.JObj?)
    && m == Some(JObj((if plain.Some? then plain.value.fields else map[])["io.nanocl.group" := JStr(group)]))
  }

  lemma {:induction false} LabelIff(m: Option<Json>, plain: Option<Json>, group: string)
    ensures IsLabelled(m, plain, group) <==> InsertGroup(plain, group).Some? && m == InsertGroup(plain, group)
    ensures InsertGroup(plain, group).None? <==> plain.Some? && !plain.value.JObj?
  {}

  /** Is the object labelled with the group? */
  predicate HasGroup(metadata: Option<Json>, group: string) {
    && metadata.Some? && metadata.value.JObj?
    && GROUP_KEY in metadata.value.fields && metadata.value.fields[GROUP_KEY] == JStr(group)
  }

  /** The label that a listing of the group looks for is there exactly when labelling can have put it there. */
  lemma {:induction false} HasGroupIff(m: Option<Json>, group: string)
    ensures HasGroup(m, group) <==> exists plain :: IsLabelled(m, plain, group)
  {
    if HasGroup(m, group) {
      assert m.value.fields == m.value.fields["io.nanocl.group" := JStr(group)];
      assert IsLabelled(m, m, group);
    }
  }

  // ---------------------------------------------------------------- one object

  function Send(r: Run, q: Request, reply: Reply, after: Server): Run {
    Run(if reply.Refused? then r.server else after, r.sent + [q], if reply.Fine? then r.end else Failed)
  }

  function AsPartial(name: string, row: SecretRow): SecretPartial {
    SecretPartial(name, row.kind, row.immutable, row.metadata, row.data)
  }

  /** A secret is created when absent, and otherwise patched if anything differs; a patch carries only
      metadata and data. */
  function SecretApplied(r: Run, group: string, s: SecretPartial, reply: Reply): Run {
    var m, sv := InsertGroup(s.metadata, group), r.server;
    if m.None? then r.(end := Panicked)
    else if s.name !in sv.secrets then
      Send(r, CreateSecret(s.name), reply,
           sv.(secrets := sv.secrets[s.name := SecretRow(s.kind, s.immutable, m, s.data, sv.now)], now := sv.now + 1))
    else if AsPartial(s.name, sv.secrets[s.name]) != s.(metadata := m) then
      Send(r, PatchSecret(s.name), reply,
           sv.(secrets := sv.secrets[s.name := sv.secrets[s.name].(metadata := m, data := s.data)]))
    else r
  }

  /** A job is deleted when present, and then always created. */
  function JobApplied(r: Run, group: string, j: JobPartial, deletion: Reply, reply: Reply): Run {
    if InsertGroup(j.metadata, group).None? then r.(end := Panicked)
    else
      var r1 := if j.name in r.server.jobs
                then Send(r, Delete(Jobs, j.name), deletion, Deleted(r.server, Jobs, j.name))
                else r;
      if !r1.end.Completed? then r1
      else Send(r1, CreateJob(j.name), reply, r1.server.(jobs := r1.server.jobs + {j.name}))
  }

  function CargoApplied(r: Run, group: string, namespace: string, reload: bool, c: CargoSpecPartial,
                        reply: Reply): Run {
    var m, sv, key := InsertGroup(c.metadata, group), r.server, KeyOf(namespace, c.name);
    if m.None? then r.(end := Panicked)
    else
      var want := c.(metadata := m);
      if key !in sv.cargoes then
        Send(r, CreateCargo(namespace, c.name), reply,
             sv.(cargoes := sv.cargoes[key := CargoRow(namespace, want, sv.now)], now := sv.now + 1))
      else if sv.cargoes[key].spec != want || reload then
        Send(r, PutCargo(namespace, c.name), reply,
             sv.(cargoes := sv.cargoes[key := sv.cargoes[key].(spec := want)]))
      else r
  }

  // ---------------------------------------------------------------- whole sections

  type Replies = int -> Reply

  datatype Answers = Answers(secrets: Replies, jobDeletions: Replies, jobs: Replies, cargoes: Replies)

  function SecretsFrom(r: Run, group: string, list: seq<SecretPartial>, replies: Replies, k: nat): Run
    requires k <= |list|
    decreases |list| - k
  {
    if k == |list| || !r.end.Completed? then r
    else SecretsFrom(SecretApplied(r, group, list[k], replies(k)), group, list, replies, k + 1)
  }

  function JobsFrom(r: Run, group: string, list: seq<JobPartial>, deletions: Replies, replies: Replies, k: nat): Run
    requires k <= |list|
    decreases |list| - k
  {
    if k == |list| || !r.end.Completed? then r
    else JobsFrom(JobApplied(r, group, list[k], deletions(k), replies(k)), group, list, deletions, replies, k + 1)
  }

  function CargoesFrom(r: Run, group: string, namespace: string, reload: bool, list: seq<CargoSpecPartial>,
                       replies: Replies, k: nat): Run
    requires k <= |list|
    decreases |list| - k
  {
    if k == |list| || !r.end.Completed? then r
    else
      CargoesFrom(CargoApplied(r, group, namespace, reload, list[k], replies(k)), group, namespace, reload, list,
                  replies, k + 1)
  }

  function Applied(r: Run, file: File, reload: bool, answers: Answers): Run {
    var r1 := SecretsFrom(r, GroupOf(file), GetOr(file.secrets, []), answers.secrets, 0);
    var r2 := JobsFrom(r1, GroupOf(file), GetOr(file.jobs, []), answers.jobDeletions, answers.jobs, 0);
    CargoesFrom(r2, GroupOf(file), NamespaceOf(file), reload, GetOr(file.cargoes, []), answers.cargoes, 0)
  }

  // ---------------------------------------------------------------- removal

  function Deleted(sv: Server, target: Target, name: string): Server {
    match target
    case Secrets => sv.(secrets := sv.secrets - {name})
    case Jobs => sv.(jobs := sv.jobs - {name})
    case Cargoes(namespace) => sv.(cargoes := sv.cargoes - {KeyOf(namespace, name)})
  }

  /** One deletion: a refusal is only reported, a wait that fails ends the removal of this kind; nothing
      is waited for when secrets are deleted. */
  function Remove(r: Run, target: Target, name: string, reply: Reply): Run {
    Run(if reply.Refused? then r.server else Deleted(r.server, target, name),
        r.sent + [Delete(target, name)],
        if reply.Unanswered? && !target.Secrets? then Failed else r.end)
  }

  function RemoveFrom(r: Run, target: Target, names: seq<string>, replies: Replies, k: nat): Run
    requires k <= |names|
    decreases |names| - k
  {
    if k == |names| || !r.end.Completed? then r
    else RemoveFrom(Remove(r, target, names[k], replies(k)), target, names, replies, k + 1)
  }

  /** The outcome of a kind's removal is ignored. */
  function Ignoring(r: Run): Run { r.(end := Completed) }

  function StateRemoved(r: Run, jobs: seq<string>, namespace: string, cargoes: seq<string>, secrets: seq<string>,
                        answers: Answers): Run {
    var r1 := Ignoring(RemoveFrom(r, Jobs, jobs, answers.jobs, 0));
    var r2 := Ignoring(RemoveFrom(r1, Cargoes(namespace), cargoes, answers.cargoes, 0));
    Ignoring(RemoveFrom(r2, Secrets, secrets, answers.secrets, 0))
  }

  function SecretNames(list: seq<SecretPartial>): (names: seq<string>)
    ensures |names| == |list| && forall i | 0 <= i < |list| :: names[i] == list[i].name
  {
    seq(|list|, i requires 0 <= i < |list| => list[i].name)
  }

  function JobNames(list: seq<JobPartial>): (names: seq<string>)
    ensures |names| == |list| && forall i | 0 <= i < |list| :: names[i] == list[i].name
  {
    seq(|list|, i requires 0 <= i < |list| => list[i].name)
  }

  function CargoNames(list: seq<CargoSpecPartial>): (names: seq<string>)
    ensures |names| == |list| && forall i | 0 <= i < |list| :: names[i] == list[i].name
  {
    seq(|list|, i requires 0 <= i < |list| => list[i].name)
  }

  /** The listed names that are not among those kept. */
  function Leaving(page: seq<string>, kept: seq<string>): (r: seq<string>)
    ensures forall n :: n in r <==> n in page && n !in kept
  {
    if page == [] then []
    else
      var rest := Leaving(page[1..], kept);
      assert page == [page[0]] + page[1..];
      if page[0] in kept then rest else [page[0]] + rest
  }

  /** `secretPage` and `cargoPage` are what the daemon lists for the group. */
  function OrphansRemoved(r: Run, file: File, secretPage: seq<string>, cargoPage: seq<string>, answers: Answers): Run {
    StateRemoved(r, JobNames(GetOr(file.jobs, [])), NamespaceOf(file),
                 if file.cargoes.Some? then Leaving(cargoPage, CargoNames(file.cargoes.value)) else [],
                 if file.secrets.Some? then Leaving(secretPage, SecretNames(file.secrets.value)) else [],
                 answers)
  }

  // ---------------------------------------------------------------- the client

  class Client {
    var server: Server
    var sent: seq<Request>

    constructor (server: Server)
      ensures this.server == server && this.sent == []
    {
      this.server, this.sent := server, [];
    }

    /** Send a write whose effect on the daemon, when accepted, is `after`. */
    method Write(q: Request, reply: Reply, after: Server) returns (end: End)
      modifies this
      ensures Run(server, sent, end) == old(Send(Run(server, sent, Completed), q, reply, after))
    {
      sent := sent + [q];
      if reply.Refused? { return Failed; }
      server := after;
      end := if reply.Fine? then Completed else Failed;
    }

    method ApplySecrets(group: string, list: seq<SecretPartial>, replies: Replies) returns (end: End)
      modifies this
      ensures Run(server, sent, end) == old(SecretsFrom(Run(server, sent, Completed), group, list, replies, 0))
    {
      end := Completed;
      ghost var all := SecretsFrom(Run(server, sent, end), group, list, replies, 0);
      for k := 0 to |list|
        invariant end == Completed
        invariant SecretsFrom(Run(server, sent, end), group, list, replies, k) == all
      {
        var secret, metadata := list[k], InsertGroup(list[k].metadata, group);
        if metadata.None? { return Panicked; }
        secret := secret.(metadata := metadata);
        if secret.name !in server.secrets {
          var row := SecretRow(secret.kind, secret.immutable, metadata, secret.data, server.now);
          end := Write(CreateSecret(secret.name), replies(k),
                       server.(secrets := server.secrets[secret.name := row], now := server.now + 1));
          if end != Completed { return; }
        } else if AsPartial(secret.name, server.secrets[secret.name]) != secret {
          var row := server.secrets[secret.name].(metadata := metadata, data := secret.data);
          end := Write(PatchSecret(secret.name), replies(k), server.(secrets := server.secrets[secret.name := row]));
          if end != Completed { return; }
        }
      }
    }

    method ApplyJobs(group: string, list: seq<JobPartial>, deletions: Replies, replies: Replies) returns (end: End)
      modifies this
      ensures Run(server, sent, end) == old(JobsFrom(Run(server, sent, Completed), group, list, deletions, replies, 0))
    {
      end := Completed;
      ghost var all := JobsFrom(Run(server, sent, end), group, list, deletions, replies, 0);
      for k := 0 to |list|
        invariant end == Completed
        invariant JobsFrom(Run(server, sent, end), group, list, deletions, replies, k) == all
      {
        var name, metadata := list[k].name, InsertGroup(list[k].metadata, group);
        if metadata.None? { return Panicked; }
        if name in server.jobs {
          end := Write(Delete(Jobs, name), deletions(k), Deleted(server, Jobs, name));
          if end != Completed { return; }
        }
        end := Write(CreateJob(name), replies(k), server.(jobs := server.jobs + {name}));
        if end != Completed { return; }
      }
    }

    method ApplyCargoes(group: string, namespace: string, reload: bool, list: seq<CargoSpecPartial>, replies: Replies)
      returns (end: End)
      modifies this
      ensures Run(server, sent, end)
              == old(CargoesFrom(Run(server, sent, Completed), group, namespace, reload, list, replies, 0))
    {
      end := Completed;
      ghost var all := CargoesFrom(Run(server, sent, end), group, namespace, reload, list, replies, 0);
      for k := 0 to |list|
        invariant end == Completed
        invariant CargoesFrom(Run(server, sent, end), group, namespace, reload, list, replies, k) == all
      {
        var cargo, metadata := list[k], InsertGroup(list[k].metadata, group);
        if metadata.None? { return Panicked; }
        cargo := cargo.(metadata := metadata);
        var key := KeyOf(namespace, cargo.name);
        if key !in server.cargoes {
          end := Write(CreateCargo(namespace, cargo.name), replies(k),
                       server.(cargoes := server.cargoes[key := CargoRow(namespace, cargo, server.now)], now :=
                                 server.now + 1));
          if end != Completed { return; }
        } else if server.cargoes[key].spec != cargo || reload {
          end := Write(PutCargo(namespace, cargo.name), replies(k),
                       server.(cargoes := server.cargoes[key := server.cargoes[key].(spec := cargo)]));
          if end != Completed { return; }
        }
      }
    }

    method StateApply(file: File, reload: bool, answers: Answers) returns (end: End)
      modifies this
      ensures Run(server, sent, end) == old(Applied(Run(server, sent, Completed), file, reload, answers))
    {
      end := ApplySecrets(GroupOf(file), GetOr(file.secrets, []), answers.secrets);
      if end != Completed { return; }
      end := ApplyJobs(GroupOf(file), GetOr(file.jobs, []), answers.jobDeletions, answers.jobs);
      if end != Completed { return; }
      end := ApplyCargoes(GroupOf(file), NamespaceOf(file), reload, GetOr(file.cargoes, []), answers.cargoes);
    }

    method ExecRm(target: Target, names: seq<string>, replies: Replies) returns (end: End)
      modifies this
      ensures Run(server, sent, end) == old(RemoveFrom(Run(server, sent, Completed), target, names, replies, 0))
    {
      end := Completed;
      ghost var all := RemoveFrom(Run(server, sent, end), target, names, replies, 0);
      for k := 0 to |names|
        invariant end == Completed
        invariant RemoveFrom(Run(server, sent, end), target, names, replies, k) == all
      {
        sent := sent + [Delete(target, names[k])];
        if replies(k).Refused? { continue; }
        server := Deleted(server, target, names[k]);
        if replies(k).Unanswered? && !target.Secrets? { return Failed; }
      }
    }

    method RemoveOrphans(file: File, secretPage: seq<string>, cargoPage: seq<string>, answers: Answers)
      modifies this
      ensures Run(server, sent, Completed)
              == old(OrphansRemoved(Run(server, sent, Completed), file, secretPage, cargoPage, answers))
    {
      var _ := ExecRm(Jobs, JobNames(GetOr(file.jobs, [])), answers.jobs);
      var cargoes := if file.cargoes.Some? then Leaving(cargoPage, CargoNames(file.cargoes.value)) else [];
      var _ := ExecRm(Cargoes(NamespaceOf(file)), cargoes, answers.cargoes);
      var secrets := if file.secrets.Some? then Leaving(secretPage, SecretNames(file.secrets.value)) else [];
      var _ := ExecRm(Secrets, secrets, answers.secrets);
    }
  }
}
