/** Removing the objects that left a statefile, and applying it: the group is what the file names. */
module Orphans {
  import opened Options
  import opened Specs
  import opened StateApply
  import opened Convergence

  // ---------------------------------------------------------------- what the daemon lists

  const PAGE_SIZE: nat := 100

  function LabelledSecrets(sv: Server, group: string): set<string> {
    set n | n in sv.secrets && HasGroup(sv.secrets[n].metadata, group)
  }

  predicate LabelledCargo(sv: Server, namespace: string, group: string, key: string) {
    key in sv.cargoes && sv.cargoes[key].namespace == namespace && HasGroup(sv.cargoes[key].spec.metadata, group)
  }

  /** The names in the specs of the namespace's labelled cargoes: what the listing is reduced to. */
  function LabelledCargoes(sv: Server, namespace: string, group: string): set<string> {
    set key | key in sv.cargoes && LabelledCargo(sv, namespace, group, key) :: sv.cargoes[key].spec.name
  }

  /** A listing without a limit of its own: the newest of the members, at most `PAGE_SIZE` of them. */
  ghost predicate IsPage(members: set<string>, createdAt: string -> nat, page: seq<string>) {
    && Distinct(page) && (forall n | n in page :: n in members)
    && |page| == (if |members| <= PAGE_SIZE then |members| else PAGE_SIZE)
    && (forall i, j | 0 <= i < j < |page| :: createdAt(page[i]) >= createdAt(page[j]))
    && (forall n, m | n in page && m in members && m !in page :: createdAt(n) >= createdAt(m))
  }

  function SecretAge(sv: Server): string -> nat { n => if n in sv.secrets then sv.secrets[n].createdAt else 0 }

  function CargoAge(sv: Server, namespace: string): string -> nat {
    n => if KeyOf(namespace, n) in sv.cargoes then sv.cargoes[KeyOf(namespace, n)].createdAt else 0
  }

  ghost predicate SecretPage(sv: Server, group: string, page: seq<string>) {
    IsPage(LabelledSecrets(sv, group), SecretAge(sv), page)
  }

  ghost predicate CargoPage(sv: Server, namespace: string, group: string, page: seq<string>) {
    IsPage(LabelledCargoes(sv, namespace, group), CargoAge(sv, namespace), page)
  }

  function Elements(names: seq<string>): set<string> { set n | n in names }

  lemma {:induction false} DistinctCount(names: seq<string>)
    requires Distinct(names)
    ensures |Elements(names)| == |names|
  {
    if names != [] {
      var last := names[|names| - 1];
      DistinctCount(names[..|names| - 1]);
      assert Elements(names) == Elements(names[..|names| - 1]) + {last};
    }
  }

  /** A page shows everything exactly when there are at most 100 members. */
  lemma {:induction false} PageIsWholeIff(members: set<string>, createdAt: string -> nat, page: seq<string>)
    requires IsPage(members, createdAt, page)
    ensures members - Elements(page) == {} <==> |members| <= 100
  {
    DistinctCount(page);
    var shown := Elements(page);
    assert shown <= members;
    assert |members| == |shown| + |members - shown| by { assert members == shown + (members - shown); }
  }

  // ---------------------------------------------------------------- keys

  /** Each cargo is stored under the key of its namespace and name, and names hold no dot. */
  predicate WellNamed(sv: Server) {
    forall key | key in sv.cargoes ::
      key == KeyOf(sv.cargoes[key].namespace, sv.cargoes[key].spec.name) && '.' !in sv.cargoes[key].spec.name
  }

  predicate Dotless(names: seq<string>) { forall k | 0 <= k < |names| :: '.' !in names[k] }

  lemma {:induction false} KeyTellsBoth(ns1: string, n1: string, ns2: string, n2: string)
    requires '.' !in n1 && '.' !in n2 && KeyOf(ns1, n1) == KeyOf(ns2, n2)
    ensures n1 == n2 && ns1 == ns2
  {
    var k := KeyOf(ns1, n1);
    assert k[|n1|] == '.' && k[|n2|] == '.';
    assert forall i | 0 <= i < |n1| :: k[i] == n1[i];
    assert forall i | 0 <= i < |n2| :: k[i] == n2[i];
    assert |n1| == |n2|;
    assert k[..|n1|] == n1 && k[..|n2|] == n2;
    assert k[|n1| + 1..] == ns1 && k[|n2| + 1..] == ns2;
  }

  lemma {:induction false} LabelledByKey(sv: Server, namespace: string, group: string, name: string)
    requires WellNamed(sv) && '.' !in name
    ensures name in LabelledCargoes(sv, namespace, group) <==>
          LabelledCargo(sv, namespace, group, KeyOf(namespace, name))
  {
    var key := KeyOf(namespace, name);
    if LabelledCargo(sv, namespace, group, key) {
      KeyTellsBoth(namespace, name, namespace, sv.cargoes[key].spec.name);
    }
  }

  // ---------------------------------------------------------------- removal

  function KeysOf(namespace: string, names: seq<string>): set<string> { set n | n in names :: KeyOf(namespace, n) }

  /** A removal that starts at `k` gets as far as name number `i`: no wait has failed before; for secrets there is
      none to fail. */
  predicate Reaches(target: Target, replies: Replies, k: nat, i: nat) {
    target.Secrets? || forall j | k <= j < i :: !replies(j).Unanswered?
  }

  /** The names whose deletion is asked for and not refused. */
  function Gone(target: Target, names: seq<string>, replies: Replies, k: nat): set<string> {
    set i | k <= i < |names| && Reaches(target, replies, k, i) && !replies(i).Refused? :: names[i]
  }

  function Without(sv: Server, target: Target, names: set<string>): Server {
    match target
    case Secrets => sv.(secrets := sv.secrets - names)
    case Jobs => sv.(jobs := sv.jobs - names)
    case Cargoes(namespace) => sv.(cargoes := sv.cargoes - set n | n in names :: KeyOf(namespace, n))
  }

  /** The deletions of names `k` to `m`, in order. */
  function Deletions(target: Target, names: seq<string>, k: nat, m: nat): (r: seq<Request>)
    requires k <= m <= |names|
    ensures |r| == m - k && forall i | 0 <= i < |r| :: r[i] == Delete(target, names[k + i])
    decreases m - k
  {
    if k == m then [] else [Delete(target, names[k])] + Deletions(target, names, k + 1, m)
  }

  lemma {:induction false} GoneFirst(target: Target, names: seq<string>, replies: Replies, k: nat)
    requires k < |names|
    ensures Gone(target, names, replies, k)
            == (if replies(k).Refused? then {} else {names[k]})
               + (if !target.Secrets? && replies(k).Unanswered? then {} else Gone(target, names, replies, k + 1))
  {
    forall i | k < i
      ensures Reaches(target, replies, k, i) <==>
              (target.Secrets? || !replies(k).Unanswered?) && Reaches(target, replies, k + 1, i)
    {}
  }

  lemma {:induction false} WithoutBoth(sv: Server, target: Target, a: set<string>, b: set<string>)
    ensures Without(Without(sv, target, a), target, b) == Without(sv, target, a + b)
  {
    match target {
      case Cargoes(namespace) =>
        assert (set n | n in a + b :: KeyOf(namespace, n))
            == (set n | n in a :: KeyOf(namespace, n)) + (set n | n in b :: KeyOf(namespace, n));
      case Secrets => assert sv.secrets - a - b == sv.secrets - (a + b);
      case Jobs => assert sv.jobs - a - b == sv.jobs - (a + b);
    }
  }

  lemma {:induction false} RemoveOne(r: Run, target: Target, name: string, reply: Reply)
    ensures Remove(r, target, name, reply).server == Without(r.server, target, if reply.Refused? then {} else {name})
  {
    match target {
      case Cargoes(namespace) =>
        assert (set n | n in {name} :: KeyOf(namespace, n)) == {KeyOf(namespace, name)};
        assert r.server.cargoes - {} == r.server.cargoes;
      case Secrets => assert r.server.secrets - {} == r.server.secrets;
      case Jobs => assert r.server.jobs - {} == r.server.jobs;
    }
  }

  lemma {:induction false} NothingGone(sv: Server, target: Target)
    ensures Without(sv, target, {}) == sv
  {
    assert sv.secrets - {} == sv.secrets && sv.jobs - {} == sv.jobs && sv.cargoes - {} == sv.cargoes;
  }

  /** What is gone after a removal are the names it gets to whose deletion was not refused. */
  lemma {:induction false} RemovalEffect(r: Run, target: Target, names: seq<string>, replies: Replies, k: nat)
    requires k <= |names| && r.end.Completed?
    ensures RemoveFrom(r, target, names, replies, k).server
            == Without(r.server, target, Gone(target, names, replies, k))
    decreases |names| - k
  {
    if k == |names| {
      assert Gone(target, names, replies, k) == {};
      NothingGone(r.server, target);
    } else {
      var r1 := Remove(r, target, names[k], replies(k));
      var first, rest := if replies(k).Refused? then {} else {names[k]}, Gone(target, names, replies, k + 1);
      GoneFirst(target, names, replies, k);
      RemoveOne(r, target, names[k], replies(k));
      if r1.end.Completed? {
        RemovalEffect(r1, target, names, replies, k + 1);
        WithoutBoth(r.server, target, first, rest);
      } else {
        assert RemoveFrom(r1, target, names, replies, k + 1) == r1;
        assert first + {} == first;
      }
    }
  }

  /** How many of `n` names are asked for: those up to the first wait that fails. */
  function Asked(target: Target, replies: Replies, n: nat, k: nat): (m: nat)
    requires k <= n
    ensures k <= m <= n
    decreases n - k
  {
    if k == n then n
    else if !target.Secrets? && replies(k).Unanswered? then k + 1
    else Asked(target, replies, n, k + 1)
  }

  lemma {:induction false} AskedIff(target: Target, replies: Replies, n: nat, k: nat, i: nat)
    requires k <= i < n
    ensures i < Asked(target, replies, n, k) <==> Reaches(target, replies, k, i)
    decreases n - k
  {
    if k < i {
      AskedIff(target, replies, n, k + 1, i);
      assert Reaches(target, replies, k, i) <==>
          (target.Secrets? || !replies(k).Unanswered?) && Reaches(target, replies, k + 1, i);
    }
  }

  /** It asks for the deletions in order, up to the first whose wait fails. */
  lemma {:induction false} RemovalAsks(r: Run, target: Target, names: seq<string>, replies: Replies, k: nat)
    requires k <= |names| && r.end.Completed?
    ensures RemoveFrom(r, target, names, replies, k).sent
            == r.sent + Deletions(target, names, k, Asked(target, replies, |names|, k))
    decreases |names| - k
  {
    if k < |names| {
      var r1, m := Remove(r, target, names[k], replies(k)), Asked(target, replies, |names|, k);
      if r1.end.Completed? {
        RemovalAsks(r1, target, names, replies, k + 1);
        assert r1.sent + Deletions(target, names, k + 1, m)
            == r.sent + ([Delete(target, names[k])] + Deletions(target, names, k + 1, m));
      } else {
        assert RemoveFrom(r1, target, names, replies, k + 1) == r1;
        assert Deletions(target, names, k + 1, m) == [];
      }
    }
  }

  /** It fails exactly when a wait does. */
  lemma {:induction false} RemovalEnds(r: Run, target: Target, names: seq<string>, replies: Replies, k: nat)
    requires k <= |names| && r.end.Completed?
    ensures RemoveFrom(r, target, names, replies, k).end
            == if Reaches(target, replies, k, |names|) then Completed else Failed
    decreases |names| - k
  {
    if k < |names| {
      var r1 := Remove(r, target, names[k], replies(k));
      assert Reaches(target, replies, k, |names|) <==>
          (target.Secrets? || !replies(k).Unanswered?) && Reaches(target, replies, k + 1, |names|);
      if r1.end.Completed? {
        RemovalEnds(r1, target, names, replies, k + 1);
      } else {
        assert RemoveFrom(r1, target, names, replies, k + 1) == r1;
      }
    }
  }

  /** With every deletion accepted all the names are gone. */
  lemma {:induction false} RemovesAll(r: Run, target: Target, names: seq<string>, replies: Replies)
    requires r.end.Completed? && forall i :: replies(i).Fine?
    ensures var r' := RemoveFrom(r, target, names, replies, 0);
            r'.end.Completed? && r'.server == Without(r.server, target, Elements(names))
  {
    RemovalEffect(r, target, names, replies, 0);
    RemovalEnds(r, target, names, replies, 0);
    assert Gone(target, names, replies, 0) == Elements(names) by {
      forall n | n in names ensures n in Gone(target, names, replies, 0) {
        var i :| 0 <= i < |names| && names[i] == n;
        assert Reaches(target, replies, 0, i) && !replies(i).Refused?;
      }
    }
  }

  predicate AllFine(answers: Answers, k: int) {
    answers.secrets(k).Fine? && answers.jobs(k).Fine? && answers.cargoes(k).Fine?
  }

  function LeavingSecrets(file: File, page: seq<string>): seq<string> {
    if file.secrets.Some? then Leaving(page, SecretNames(file.secrets.value)) else []
  }

  function LeavingCargoes(file: File, page: seq<string>): seq<string> {
    if file.cargoes.Some? then Leaving(page, CargoNames(file.cargoes.value)) else []
  }

  /** With every deletion accepted, removal deletes the listed orphans of the sections the file has, and
      all of the file's own jobs. */
  lemma {:induction false} RemovalDeletes(r: Run, file: File, secretPage: seq<string>, cargoPage: seq<string>,
                                          answers: Answers)
    requires r.end.Completed? && forall k :: AllFine(answers, k)
    ensures var r' := OrphansRemoved(r, file, secretPage, cargoPage, answers);
            && r'.end.Completed?
            && r'.server.secrets == r.server.secrets - Elements(LeavingSecrets(file, secretPage))
            && r'.server.cargoes == r.server.cargoes - KeysOf(NamespaceOf(file), LeavingCargoes(file, cargoPage))
            && r'.server.jobs == r.server.jobs - Elements(JobNames(GetOr(file.jobs, [])))
  {
    var jobs, namespace := JobNames(GetOr(file.jobs, [])), NamespaceOf(file);
    var cargoes, secrets := LeavingCargoes(file, cargoPage), LeavingSecrets(file, secretPage);
    assert forall k :: AllFine(answers, k) ==>
          answers.secrets(k).Fine? && answers.jobs(k).Fine? && answers.cargoes(k).Fine?;
    RemovesAll(r, Jobs, jobs, answers.jobs);
    var r1 := Ignoring(RemoveFrom(r, Jobs, jobs, answers.jobs, 0));
    RemovesAll(r1, Cargoes(namespace), cargoes, answers.cargoes);
    assert KeysOf(namespace, cargoes) == set n | n in Elements(cargoes) :: KeyOf(namespace, n);
    var r2 := Ignoring(RemoveFrom(r1, Cargoes(namespace), cargoes, answers.cargoes, 0));
    RemovesAll(r2, Secrets, secrets, answers.secrets);
  }

  // ---------------------------------------------------------------- removal, then apply

  lemma {:induction false} LabelledHasGroup(m: Option<Json>, plain: Option<Json>, group: string)
    requires IsLabelled(m, plain, group)
    ensures HasGroup(m, group)
  {}

  /** Whether a name is a member after the secrets section was applied. */
  lemma {:induction false} SecretThen(group: string, list: seq<SecretPartial>, removed: Server, after: Server,
                                      n: string)
    requires SecretsDone(list, |list|, group, removed.secrets, after.secrets)
    ensures n in LabelledSecrets(after, group) <==> n in SecretNames(list) || n in LabelledSecrets(removed, group)
  {
    var names := SecretNames(list);
    FirstNamesAre(names, |names|);
    assert names[..|names|] == names;
    if n in names {
      var j :| 0 <= j < |names| && names[j] == n;
      assert SecretDone(list[j], group, removed.secrets, after.secrets);
      LabelledHasGroup(after.secrets[n].metadata, list[j].metadata, group);
    }
  }

  lemma {:induction false} SecretsThen(file: File, page: seq<string>, list: seq<SecretPartial>, before: Server,
                                       removed: Server, after: Server)
    requires file.secrets == Some(list)
    requires removed.secrets == before.secrets - Elements(LeavingSecrets(file, page))
    requires SecretsDone(list, |list|, GroupOf(file), removed.secrets, after.secrets)
    ensures LabelledSecrets(after, GroupOf(file))
            == Elements(SecretNames(list)) + (LabelledSecrets(before, GroupOf(file)) - Elements(page))
  {
    var group, names := GroupOf(file), SecretNames(list);
    forall n ensures n in LabelledSecrets(after, group) <==>
                     n in Elements(names) + (LabelledSecrets(before, group) - Elements(page))
    {
      SecretThen(group, list, removed, after, n);
    }
  }

  lemma {:induction false} KeysAre(namespace: string, list: seq<CargoSpecPartial>, k: nat)
    requires k <= |list|
    ensures forall key :: key in FirstKeys(namespace, list, k) <==> key in KeysOf(namespace, CargoNames(list)[..k])
  {
    var names := CargoNames(list);
    if k > 0 {
      KeysAre(namespace, list, k - 1);
      assert names[..k] == names[..k - 1] + [names[k - 1]];
      assert KeysOf(namespace, names[..k]) == KeysOf(namespace, names[..k - 1]) + {KeyOf(namespace, names[k - 1])};
    }
  }

  /** An apply keeps cargoes well named, and what it wrote carries the label in the file's namespace. */
  lemma {:induction false} CargoesStayNamed(group: string, namespace: string, list: seq<CargoSpecPartial>,
                                            removed: Server, after: Server)
    requires WellNamed(removed) && Dotless(CargoNames(list))
    requires CargoesDone(list, |list|, group, namespace, removed.cargoes, after.cargoes)
    ensures WellNamed(after)
    ensures forall j | 0 <= j < |list| :: LabelledCargo(after, namespace, group, KeyOf(namespace, list[j].name))
  {
    var names := CargoNames(list);
    KeysAre(namespace, list, |list|);
    assert names[..|names|] == names;
    forall j | 0 <= j < |list|
      ensures var key := KeyOf(namespace, list[j].name);
              && LabelledCargo(after, namespace, group, key)
              && after.cargoes[key].spec.name == list[j].name && '.' !in list[j].name
    {
      var key := KeyOf(namespace, list[j].name);
      assert CargoDone(list[j], group, namespace, after.cargoes) && '.' !in names[j];
      LabelledHasGroup(after.cargoes[key].spec.metadata, list[j].metadata, group);
      if key in removed.cargoes {
        KeyTellsBoth(namespace, list[j].name, removed.cargoes[key].namespace, removed.cargoes[key].spec.name);
      }
    }
    forall key | key in after.cargoes
      ensures key == KeyOf(after.cargoes[key].namespace, after.cargoes[key].spec.name)
              && '.' !in after.cargoes[key].spec.name
    {
      if key in FirstKeys(namespace, list, |list|) {
        var n :| n in names && KeyOf(namespace, n) == key;
        var j :| 0 <= j < |names| && names[j] == n;
        assert LabelledCargo(after, namespace, group, KeyOf(namespace, list[j].name));
      }
    }
  }

  lemma {:induction false} CargoesThen(file: File, page: seq<string>, list: seq<CargoSpecPartial>, before: Server,
                                       removed: Server, after: Server)
    requires file.cargoes == Some(list) && WellNamed(before) && Dotless(CargoNames(list))
    requires forall n | n in page :: n in LabelledCargoes(before, NamespaceOf(file), GroupOf(file))
    requires removed.cargoes == before.cargoes - KeysOf(NamespaceOf(file), LeavingCargoes(file, page))
    requires CargoesDone(list, |list|, GroupOf(file), NamespaceOf(file), removed.cargoes, after.cargoes)
    ensures LabelledCargoes(after, NamespaceOf(file), GroupOf(file))
            == Elements(CargoNames(list)) + (LabelledCargoes(before, NamespaceOf(file), GroupOf(file)) - Elements(page))
  {
    var group, namespace, names := GroupOf(file), NamespaceOf(file), CargoNames(list);
    CargoesStayNamed(group, namespace, list, removed, after);
    KeysAre(namespace, list, |list|);
    assert names[..|names|] == names;
    forall n ensures n in LabelledCargoes(after, namespace, group) <==>
                     n in Elements(names) + (LabelledCargoes(before, namespace, group) - Elements(page))
    {
      var key := KeyOf(namespace, n);
      if n in names {
        var j :| 0 <= j < |names| && names[j] == n;
        LabelledByKey(after, namespace, group, list[j].name);
      } else if '.' !in n {
        LabelledByKey(after, namespace, group, n);
        LabelledByKey(before, namespace, group, n);
        OnlyOwnKey(namespace, names, n);
        OnlyOwnKey(namespace, LeavingCargoes(file, page), n);
      }
    }
  }

  lemma {:induction false} OnlyOwnKey(namespace: string, names: seq<string>, n: string)
    ensures KeyOf(namespace, n) in KeysOf(namespace, names) <==> n in names
  {
    if KeyOf(namespace, n) in KeysOf(namespace, names) {
      var m :| m in names && KeyOf(namespace, m) == KeyOf(namespace, n);
      if m != n { KeysDiffer(namespace, m, n); }
    }
  }

  /** The members of a group afterwards, given the members before, the section and the page listed for it. */
  predicate Members(after: set<string>, before: set<string>, section: Option<seq<string>>, page: seq<string>) {
    if section.None? then after == before
    else
      && after == Elements(section.value) + (before - Elements(page))
      && (|before| <= 100 ==> after == Elements(section.value))
  }

  function SecretSection(file: File): Option<seq<string>> {
    if file.secrets.Some? then Some(SecretNames(file.secrets.value)) else None
  }

  function CargoSection(file: File): Option<seq<string>> {
    if file.cargoes.Some? then Some(CargoNames(file.cargoes.value)) else None
  }

  lemma {:induction false} MembersFollow(after: set<string>, before: set<string>, createdAt: string -> nat,
                                         names: seq<string>, page: seq<string>)
    requires IsPage(before, createdAt, page)
    requires after == Elements(names) + (before - Elements(page))
    ensures Members(after, before, Some(names), page)
  {
    PageIsWholeIff(before, createdAt, page);
  }

  lemma {:induction false} SecretMembers(file: File, page: seq<string>, before: Server, removed: Server, after: Server)
    requires SecretPage(before, GroupOf(file), page)
    requires removed.secrets == before.secrets - Elements(LeavingSecrets(file, page))
    requires var list := GetOr(file.secrets, []);
             SecretsDone(list, |list|, GroupOf(file), removed.secrets, after.secrets)
    ensures Members(LabelledSecrets(after, GroupOf(file)), LabelledSecrets(before, GroupOf(file)), SecretSection(file),
                    page)
  {
    if file.secrets.Some? {
      SecretsThen(file, page, file.secrets.value, before, removed, after);
      MembersFollow(LabelledSecrets(after, GroupOf(file)), LabelledSecrets(before, GroupOf(file)), SecretAge(before),
                    SecretNames(file.secrets.value), page);
    } else {
      assert after.secrets == removed.secrets == before.secrets;
    }
  }

  lemma {:induction false} CargoMembers(file: File, page: seq<string>, before: Server, removed: Server, after: Server)
    requires WellNamed(before) && Dotless(CargoNames(GetOr(file.cargoes, [])))
    requires CargoPage(before, NamespaceOf(file), GroupOf(file), page)
    requires removed.cargoes == before.cargoes - KeysOf(NamespaceOf(file), LeavingCargoes(file, page))
    requires var list := GetOr(file.cargoes, []);
             CargoesDone(list, |list|, GroupOf(file), NamespaceOf(file), removed.cargoes, after.cargoes)
    ensures Members(LabelledCargoes(after, NamespaceOf(file), GroupOf(file)),
                    LabelledCargoes(before, NamespaceOf(file), GroupOf(file)), CargoSection(file), page)
  {
    if file.cargoes.Some? {
      CargoesThen(file, page, file.cargoes.value, before, removed, after);
      MembersFollow(LabelledCargoes(after, NamespaceOf(file), GroupOf(file)),
                    LabelledCargoes(before, NamespaceOf(file), GroupOf(file)),
                    CargoAge(before, NamespaceOf(file)), CargoNames(file.cargoes.value), page);
    } else {
      assert after.cargoes == removed.cargoes == before.cargoes;
    }
  }

  /** After orphan removal with every deletion accepted, and an apply that completes, the members of the
      group are those the file names and those the listing left out, hence exactly the file's when there
      were at most 100; for a section the file does not have, they are the members there were. */
  lemma {:induction false} GroupIsTheFile(before: Server, file: File, reload: bool, secretPage: seq<string>,
                                          cargoPage: seq<string>,
                                          removing: Answers, applying: Answers)
    requires UniqueNames(file) && WellNamed(before) && Dotless(CargoNames(GetOr(file.cargoes, [])))
    requires SecretPage(before, GroupOf(file), secretPage)
    requires CargoPage(before, NamespaceOf(file), GroupOf(file), cargoPage)
    requires forall k :: AllFine(removing, k)
    requires Applied(OrphansRemoved(Run(before, [], Completed), file, secretPage, cargoPage, removing), file, reload,
                     applying).end.Completed?
    ensures var group, namespace := GroupOf(file), NamespaceOf(file);
            var after := Applied(OrphansRemoved(Run(before, [], Completed), file, secretPage, cargoPage, removing),
                                 file, reload, applying).server;
            && Members(LabelledSecrets(after, group), LabelledSecrets(before, group), SecretSection(file), secretPage)
            && Members(LabelledCargoes(after, namespace, group), LabelledCargoes(before, namespace, group),
                       CargoSection(file), cargoPage)
  {
    var r0 := Run(before, [], Completed);
    var r := OrphansRemoved(r0, file, secretPage, cargoPage, removing);
    RemovalDeletes(r0, file, secretPage, cargoPage, removing);
    ApplyAchieves(r, file, reload, applying);
    SecretMembers(file, secretPage, before, r.server, Applied(r, file, reload, applying).server);
    CargoMembers(file, cargoPage, before, r.server, Applied(r, file, reload, applying).server);
  }

  /** Any hundred of the members can be the page when all were created at once: of a bigger group, orphan
      removal leaves some out. */
  lemma {:induction false} BigGroupsOverflow(members: set<string>) returns (page: seq<string>)
    requires |members| > 100
    ensures IsPage(members, (n: string) => 0, page) && members - Elements(page) != {}
  {
    page := [];
    while |page| < PAGE_SIZE
      invariant |page| <= PAGE_SIZE && Distinct(page) && Elements(page) <= members
    {
      DistinctCount(page);
      assert members == Elements(page) + (members - Elements(page));
      var n :| n in members - Elements(page);
      assert n !in page;
      assert Elements(page + [n]) == Elements(page) + {n};
      page := page + [n];
    }
    assert forall n | n in page :: n in Elements(page);
    PageIsWholeIff(members, (n: string) => 0, page);
  }
}
