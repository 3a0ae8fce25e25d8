/**
 * Connection profiles, the files they live in and the order they are listed in
 * (crates/snxcore/src/profiles.rs, crates/snxcore/src/model/params.rs).
 */
module Profiles {
  import opened Text
  import opened Wrappers

  type Id = nat

  type Path = string

  const DEFAULT_ID: Id := 0x38703862_805c_441c_922e_ee45eaf2bb5e

  /** A profile: its identity, its display name, the file it is kept in, and everything else. */
  datatype Profile = Profile(id: Id, name: string, file: Path, settings: nat)

  // ----- The order of a listing -----

  function CompareNumbers(x: nat, y: nat): Ordering {
    if x < y then Less else if x == y then Equal else Greater
  }

  /** The first place of an identity in the order file. */
  function Position(order: seq<Id>, id: Id): (r: Option<nat>)
    ensures r.Some? ==> r.value < |order| && order[r.value] == id
    ensures r.None? <==> id !in order
  {
    if order == [] then None
    else if order[0] == id then Some(0)
    else match Position(order[1..], id)
         case None => None
         case Some(k) => Some(k + 1)
  }

  /** What the order file does not know comes last: the default profile first, the others by name. */
  function Compare(order: seq<Id>, a: Profile, b: Profile): Ordering {
    match (Position(order, a.id), Position(order, b.id))
    case (Some(x), Some(y)) => CompareNumbers(x, y)
    case (Some(_), None) => Less
    case (None, Some(_)) => Greater
    case (None, None) =>
      if a.id == DEFAULT_ID then Less
      else if b.id == DEFAULT_ID then Greater
      else CompareText(a.name, b.name)
  }

  predicate NotAfter(order: seq<Id>, a: Profile, b: Profile) {
    Compare(order, a, b) != Greater
  }

  /** The comparison contradicts itself for exactly one kind of pair: both default, and not in the order file. */
  lemma ConsistentIff(order: seq<Id>, a: Profile, b: Profile)
    ensures Compare(order, b, a) == Flip(Compare(order, a, b)) <==>
              !(a.id == DEFAULT_ID && b.id == DEFAULT_ID && DEFAULT_ID !in order)
  {
    CompareTextFlips(a.name, b.name);
  }

  /** "Not after" is total and transitive, whatever the order file says. */
  lemma NotAfterIsTotalPreorder(order: seq<Id>, a: Profile, b: Profile, c: Profile)
    ensures NotAfter(order, a, b) || NotAfter(order, b, a)
    ensures NotAfter(order, a, b) && NotAfter(order, b, c) ==> NotAfter(order, a, c)
  {
    CompareTextFlips(a.name, b.name);
    if CompareText(a.name, b.name) != Greater && CompareText(b.name, c.name) != Greater {
      CompareTextChains(a.name, b.name, c.name);
    }
  }

  /** Profiles in the order file come as they stand there, each at its first place. */
  lemma KnownAsInFile(order: seq<Id>, i: nat, j: nat, a: Profile, b: Profile)
    requires i < j < |order| && order[i] == a.id && order[j] == b.id
    requires a.id !in order[..i] && b.id !in order[..j]
    ensures Compare(order, a, b) == Less && Compare(order, b, a) == Greater
  {
    PositionIsFirst(order, i, a.id);
    PositionIsFirst(order, j, b.id);
  }

  lemma {:induction false} PositionIsFirst(order: seq<Id>, i: nat, id: Id)
    requires i < |order| && order[i] == id && id !in order[..i]
    ensures Position(order, id) == Some(i)
  {
    if i > 0 {
      assert order[0] in order[..i];
      assert order[..i] == [order[0]] + order[1..][..i - 1];
      PositionIsFirst(order[1..], i - 1, id);
    }
  }

  /** Known ones come before all others; of these the default one is first, and the rest goes by name, ascending. */
  lemma UnknownComeLater(order: seq<Id>, a: Profile, b: Profile)
    ensures a.id in order && b.id !in order ==> Compare(order, a, b) == Less && Compare(order, b, a) == Greater
    ensures a.id !in order && b.id !in order && a.id == DEFAULT_ID && b.id != DEFAULT_ID ==>
              Compare(order, a, b) == Less && Compare(order, b, a) == Greater
    ensures a.id !in order && b.id !in order && a.id != DEFAULT_ID && b.id != DEFAULT_ID ==>
              Compare(order, a, b) == CompareText(a.name, b.name)
  {
  }

  /** Different identities tie only when both are unknown to the order file and bear the same name. */
  lemma TiesAreNamesakes(order: seq<Id>, a: Profile, b: Profile)
    requires a.id != b.id
    ensures Compare(order, a, b) == Equal <==>
              a.id !in order && b.id !in order && a.id != DEFAULT_ID && b.id != DEFAULT_ID && a.name == b.name
  {
    CompareTextEqual(a.name, b.name);
  }

  // ----- Sorting -----

  predicate SortedBy(order: seq<Id>, s: seq<Profile>) {
    forall i, j | 0 <= i < j < |s| :: NotAfter(order, s[i], s[j])
  }

  /** Puts a profile behind everything it does not have to precede. */
  function Insert(order: seq<Id>, s: seq<Profile>, p: Profile): seq<Profile> {
    if s == [] then [p]
    else if NotAfter(order, s[|s| - 1], p) then s + [p]
    else Insert(order, s[..|s| - 1], p) + [s[|s| - 1]]
  }

  /** A stable sort. */
  function Sort(order: seq<Id>, s: seq<Profile>): seq<Profile> {
    if s == [] then [] else Insert(order, Sort(order, s[..|s| - 1]), s[|s| - 1])
  }

  lemma {:induction false} InsertSorts(order: seq<Id>, s: seq<Profile>, p: Profile)
    requires SortedBy(order, s)
    ensures SortedBy(order, Insert(order, s, p))
    ensures multiset(Insert(order, s, p)) == multiset(s) + multiset{p}
  {
    if s != [] {
      var front, last := s[..|s| - 1], s[|s| - 1];
      assert s == front + [last];
      if NotAfter(order, last, p) {
        forall i | 0 <= i < |s|
          ensures NotAfter(order, s[i], p)
        {
          NotAfterIsTotalPreorder(order, s[i], last, p);
        }
      } else {
        InsertSorts(order, front, p);
        var inner := Insert(order, front, p);
        forall i | 0 <= i < |inner|
          ensures NotAfter(order, inner[i], last)
        {
          NotAfterIsTotalPreorder(order, p, last, p);
          MemberOf(inner, i, front, p);
        }
      }
    }
  }

  lemma MemberOf(s: seq<Profile>, i: nat, t: seq<Profile>, p: Profile)
    requires i < |s| && multiset(s) == multiset(t) + multiset{p}
    ensures s[i] == p || exists k | 0 <= k < |t| :: s[i] == t[k]
  {
    assert s[i] in multiset(s);
  }

  lemma LastInBag(s: seq<Profile>)
    requires s != []
    ensures multiset(s) == multiset(s[..|s| - 1]) + multiset{s[|s| - 1]}
  {
    assert s == s[..|s| - 1] + [s[|s| - 1]];
  }

  lemma {:induction false} SortSorts(order: seq<Id>, s: seq<Profile>)
    ensures SortedBy(order, Sort(order, s)) && multiset(Sort(order, s)) == multiset(s)
  {
    if s != [] {
      var front, last := s[..|s| - 1], s[|s| - 1];
      SortSorts(order, front);
      InsertSorts(order, Sort(order, front), last);
      LastInBag(s);
    }
  }

  // ----- The store -----

  /** The profiles in memory, and on disk the files by path and the order file. */
  datatype State = State(profiles: seq<Profile>, files: map<Path, Profile>, order: seq<Id>)

  function Ids(profiles: seq<Profile>): (r: seq<Id>)
    ensures |r| == |profiles| && forall i | 0 <= i < |r| :: r[i] == profiles[i].id
  {
    seq(|profiles|, i requires 0 <= i < |profiles| => profiles[i].id)
  }

  /** The first profile of an identity. */
  function Find(profiles: seq<Profile>, id: Id): (r: Option<nat>)
    ensures r.Some? ==> r.value < |profiles| && profiles[r.value].id == id
    ensures r.None? ==> forall p | p in profiles :: p.id != id
  {
    if profiles == [] then None
    else if profiles[0].id == id then Some(0)
    else match Find(profiles[1..], id)
         case None => None
         case Some(k) => Some(k + 1)
  }

  function Without(profiles: seq<Profile>, id: Id): seq<Profile> {
    if profiles == [] then []
    else (if profiles[0].id == id then [] else [profiles[0]]) + Without(profiles[1..], id)
  }

  /** One item taken out and put back at another place. */
  function Moved<T>(s: seq<T>, from: nat, to: nat): (r: seq<T>)
    requires from < |s| && to < |s|
    ensures |r| == |s|
  {
    var rest := s[..from] + s[from + 1..];
    rest[..to] + [s[from]] + rest[to..]
  }

  predicate Reorders(s: State, from: nat, to: nat) {
    from < |s.profiles| && to < |s.profiles| && from != to
  }

  function AfterReorder(s: State, from: nat, to: nat): State {
    if !Reorders(s, from, to) then s
    else
      var moved := Moved(s.profiles, from, to);
      s.(profiles := moved, order := Ids(moved))
  }

  function AfterSave(s: State, p: Profile): State {
    var files := s.files[p.file := p];
    match Find(s.profiles, p.id)
    case Some(k) => s.(profiles := s.profiles[k := p], files := files)
    case None => State(s.profiles + [p], files, Ids(s.profiles + [p]))
  }

  function AfterRemove(s: State, id: Id): State {
    var kept := Without(s.profiles, id);
    match Find(s.profiles, id)
    case Some(k) => State(kept, s.files - {s.profiles[k].file}, Ids(kept))
    case None => State(kept, s.files, Ids(kept))
  }

  predicate Numbered(order: seq<Id>, profiles: seq<Profile>) {
    |order| == |profiles| && forall i | 0 <= i < |order| :: order[i] == profiles[i].id
  }

  /** A possible move takes one profile to its new place, shifts those between, and writes the order. */
  lemma MoveDecides(s: State, from: nat, to: nat, i: nat)
    requires i < |s.profiles|
    ensures var t := AfterReorder(s, from, to);
            if from >= |s.profiles| || to >= |s.profiles| || from == to then t == s
            else
              && |t.profiles| == |s.profiles| && t.files == s.files && Numbered(t.order, t.profiles)
              && t.profiles[to] == s.profiles[from]
              && (i < from && i < to ==> t.profiles[i] == s.profiles[i])
              && (i > from && i > to ==> t.profiles[i] == s.profiles[i])
              && (from < i <= to ==> t.profiles[i - 1] == s.profiles[i])
              && (to <= i < from ==> t.profiles[i + 1] == s.profiles[i])
  {
  }

  /** Saving a known profile replaces the first one of its identity; any other is appended, and the order written. */
  lemma SaveDecides(s: State, p: Profile, i: nat)
    ensures var t := AfterSave(s, p);
            && t.files == s.files[p.file := p]
            && ((forall q | q in s.profiles :: q.id != p.id) ==>
                  t.profiles == s.profiles + [p] && Numbered(t.order, t.profiles))
            && (i < |s.profiles| && s.profiles[i].id == p.id && (forall j | 0 <= j < i :: s.profiles[j].id != p.id) ==>
                  t.profiles == s.profiles[i := p] && t.order == s.order)
  {
    if i < |s.profiles| && s.profiles[i].id == p.id && forall j | 0 <= j < i :: s.profiles[j].id != p.id {
      FindIsFirst(s.profiles, p.id, i);
    }
  }

  lemma {:induction false} FindIsFirst(profiles: seq<Profile>, id: Id, i: nat)
    requires i < |profiles| && profiles[i].id == id && forall j | 0 <= j < i :: profiles[j].id != id
    ensures Find(profiles, id) == Some(i)
  {
    if i > 0 {
      FindIsFirst(profiles[1..], id, i - 1);
    }
  }

  lemma {:induction false} WithoutKeepsOthers(profiles: seq<Profile>, id: Id, p: Profile)
    ensures multiset(Without(profiles, id))[p] == if p.id == id then 0 else multiset(profiles)[p]
  {
    if profiles != [] {
      WithoutKeepsOthers(profiles[1..], id, p);
      assert profiles == [profiles[0]] + profiles[1..];
    }
  }

  /** Removing takes every profile of the identity, the first one's file, and writes the order. */
  lemma RemoveDecides(s: State, id: Id, i: nat, p: Profile)
    ensures var t := AfterRemove(s, id);
            && multiset(t.profiles)[p] == (if p.id == id then 0 else multiset(s.profiles)[p])
            && Numbered(t.order, t.profiles)
            && ((forall q | q in s.profiles :: q.id != id) ==> t.files == s.files)
            && (i < |s.profiles| && s.profiles[i].id == id && (forall j | 0 <= j < i :: s.profiles[j].id != id) ==>
                  t.files == s.files - {s.profiles[i].file})
  {
    WithoutKeepsOthers(s.profiles, id, p);
    if i < |s.profiles| && s.profiles[i].id == id && forall j | 0 <= j < i :: s.profiles[j].id != id {
      FindIsFirst(s.profiles, id, i);
    }
  }

  class ConnectionProfilesStore {
    var profiles: seq<Profile>
    var connected: Id
    var files: map<Path, Profile>
    var order: seq<Id>

    function Value(): State
      reads this
    {
      State(profiles, files, order)
    }

    /** Loads what is on disk; `dir` lists the directory in whatever order it is read. */
    constructor (dir: seq<Path>, files: map<Path, Profile>, order: seq<Id>, fallback: Profile)
      requires forall path | path in dir :: path in files
      ensures this.files == files && this.order == order && connected == DEFAULT_ID
      ensures profiles == Reloaded(dir, files, order, fallback)
    {
      var all := [];
      for i := 0 to |dir|
        invariant all == LoadedAll(dir[..i], files)
      {
        assert dir[..i + 1][..i] == dir[..i];
        all := all + [files[dir[i]].(file := dir[i])];
      }
      assert dir[..|dir|] == dir;
      all := Sort(order, all);
      if all == [] {
        all := [fallback];
      }
      this.profiles, this.connected, this.files, this.order := all, DEFAULT_ID, files, order;
    }

    method Reorder(from: nat, to: nat)
      modifies this
      ensures Value() == AfterReorder(old(Value()), from, to) && connected == old(connected)
    {
      if from >= |profiles| || to >= |profiles| || from == to {
        return;
      }
      var item := profiles[from];
      profiles := profiles[..from] + profiles[from + 1..];
      profiles := profiles[..to] + [item] + profiles[to..];
      order := Ids(profiles);
    }

    method Save(p: Profile)
      modifies this
      ensures Value() == AfterSave(old(Value()), p) && connected == old(connected)
    {
      files := files[p.file := p];
      var k := Find(profiles, p.id);
      if k.Some? {
        profiles := profiles[k.value := p];
      } else {
        profiles := profiles + [p];
        order := Ids(profiles);
      }
    }

    method Remove(id: Id)
      modifies this
      ensures Value() == AfterRemove(old(Value()), id) && connected == old(connected)
    {
      var k := Find(profiles, id);
      var file := if k.Some? then Some(profiles[k.value].file) else None;
      profiles := Without(profiles, id);
      if file.Some? {
        files := files - {file.value};
      }
      order := Ids(profiles);
    }
  }

  // ----- Loading -----

  /** A loaded profile is kept in the file it was read from. */
  function LoadedAll(dir: seq<Path>, files: map<Path, Profile>): seq<Profile>
    requires forall path | path in dir :: path in files
  {
    if dir == [] then []
    else
      var last := dir[|dir| - 1];
      LoadedAll(dir[..|dir| - 1], files) + [files[last].(file := last)]
  }

  function Reloaded(dir: seq<Path>, files: map<Path, Profile>, order: seq<Id>, fallback: Profile): seq<Profile>
    requires forall path | path in dir :: path in files
  {
    var all := Sort(order, LoadedAll(dir, files));
    if all == [] then [fallback] else all
  }

  /** A way to list a directory: every file once. */
  predicate Lists(dir: seq<Path>, files: map<Path, Profile>) {
    (forall path | path in dir :: path in files) && (forall path | path in files :: path in dir)
    && forall i, j | 0 <= i < j < |dir| :: dir[i] != dir[j]
  }

  // ----- What every operation keeps -----

  predicate DistinctIds(profiles: seq<Profile>) {
    forall i, j | 0 <= i < j < |profiles| :: profiles[i].id != profiles[j].id
  }

  predicate DistinctFiles(profiles: seq<Profile>) {
    forall i, j | 0 <= i < j < |profiles| :: profiles[i].file != profiles[j].file
  }

  /** Identities and files are told apart, and every file holds a profile that is in memory. */
  predicate Sound(s: State) {
    && DistinctIds(s.profiles) && DistinctFiles(s.profiles)
    && forall path | path in s.files :: s.files[path].file == path && s.files[path] in s.profiles
  }

  /** The order file lists the profiles as they are in memory. */
  predicate OrderSaved(s: State) {
    s.order == Ids(s.profiles)
  }

  datatype Op = Reorder(from: nat, to: nat) | Save(p: Profile) | Remove(id: Id)

  function After(s: State, op: Op): State {
    match op
    case Reorder(from, to) => AfterReorder(s, from, to)
    case Save(p) => AfterSave(s, p)
    case Remove(id) => AfterRemove(s, id)
  }

  /** A profile keeps its file: it is saved where it was, and a new one gets a file of its own. */
  predicate Proper(s: State, op: Op) {
    op.Save? ==> forall q | q in s.profiles :: q.id == op.p.id <==> q.file == op.p.file
  }

  /** The operations that write the order file. */
  predicate SavesOrder(s: State, op: Op) {
    match op
    case Reorder(from, to) => Reorders(s, from, to)
    case Save(p) => Find(s.profiles, p.id).None?
    case Remove(_) => true
  }

  lemma MovedKeeps<T>(s: seq<T>, from: nat, to: nat)
    requires from < |s| && to < |s|
    ensures multiset(Moved(s, from, to)) == multiset(s)
    ensures Moved(s, from, to)[to] == s[from]
  {
    var rest := s[..from] + s[from + 1..];
    assert s == s[..from] + ([s[from]] + s[from + 1..]);
    assert multiset(s) == multiset(rest) + multiset{s[from]};
    assert rest == rest[..to] + rest[to..];
    assert Moved(s, from, to) == rest[..to] + ([s[from]] + rest[to..]);
  }

  lemma {:induction false} NoDuplicates<T>(s: seq<T>)
    requires forall i, j | 0 <= i < j < |s| :: s[i] != s[j]
    ensures forall x :: multiset(s)[x] <= 1
  {
    if s != [] {
      var front, last := s[..|s| - 1], s[|s| - 1];
      assert s == front + [last];
      NoDuplicates(front);
      assert last !in front;
    }
  }

  lemma SingleMeansDistinct<T>(s: seq<T>, i: nat, j: nat)
    requires i < j < |s| && forall x :: multiset(s)[x] <= 1
    ensures s[i] != s[j]
  {
    var a, b := s[..j], s[j + 1..];
    assert s == a + ([s[j]] + b);
    assert multiset(s) == multiset(a) + (multiset{s[j]} + multiset(b));
    assert a[i] == s[i];
    assert multiset(a)[s[i]] >= 1;
    assert multiset(s)[s[j]] == multiset(a)[s[j]] + 1 + multiset(b)[s[j]];
  }

  /** A rearrangement has the same identities and files. */
  lemma RearrangedIsDistinct(s: seq<Profile>, t: seq<Profile>)
    requires multiset(s) == multiset(t) && DistinctIds(s) && DistinctFiles(s)
    ensures DistinctIds(t) && DistinctFiles(t)
    ensures forall p :: p in t <==> p in s
  {
    NoDuplicates(s);
    forall i, j | 0 <= i < j < |t|
      ensures t[i].id != t[j].id && t[i].file != t[j].file
    {
      SingleMeansDistinct(t, i, j);
      assert t[i] in multiset(s) && t[j] in multiset(s);
    }
    forall p
      ensures p in t <==> p in s
    {
      assert p in multiset(t) <==> p in multiset(s);
    }
  }

  lemma {:induction false} WithoutMembers(profiles: seq<Profile>, id: Id)
    ensures forall p :: p in Without(profiles, id) <==> p in profiles && p.id != id
  {
    if profiles != [] {
      WithoutMembers(profiles[1..], id);
      assert profiles == [profiles[0]] + profiles[1..];
    }
  }

  lemma {:induction false} WithoutIsDistinct(profiles: seq<Profile>, id: Id)
    requires DistinctIds(profiles) && DistinctFiles(profiles)
    ensures DistinctIds(Without(profiles, id)) && DistinctFiles(Without(profiles, id))
  {
    if profiles != [] {
      var kept := Without(profiles[1..], id);
      WithoutIsDistinct(profiles[1..], id);
      WithoutMembers(profiles[1..], id);
      forall i | 0 <= i < |kept|
        ensures kept[i].id != profiles[0].id && kept[i].file != profiles[0].file
      {
        assert kept[i] in profiles[1..];
      }
    }
  }

  /** No operation ever mixes up two profiles or leaves a file behind; the order file stays right once written. */
  lemma StepKeeps(s: State, op: Op)
    requires Sound(s) && Proper(s, op)
    ensures Sound(After(s, op))
    ensures OrderSaved(s) || SavesOrder(s, op) ==> OrderSaved(After(s, op))
  {
    match op
    case Reorder(from, to) =>
      if Reorders(s, from, to) {
        MovedKeeps(s.profiles, from, to);
        RearrangedIsDistinct(s.profiles, Moved(s.profiles, from, to));
      }
    case Save(p) => SaveKeeps(s, p);
    case Remove(id) =>
      WithoutIsDistinct(s.profiles, id);
      RemoveKeepsFiles(s, id);
  }

  lemma SaveKeeps(s: State, p: Profile)
    requires Sound(s) && Proper(s, Save(p))
    ensures Sound(AfterSave(s, p))
    ensures OrderSaved(s) || Find(s.profiles, p.id).None? ==> OrderSaved(AfterSave(s, p))
  {
    var t := AfterSave(s, p);
    var k := Find(s.profiles, p.id);
    forall i | 0 <= i < |s.profiles|
      ensures s.profiles[i].id == p.id <==> s.profiles[i].file == p.file
    {
      assert s.profiles[i] in s.profiles;
    }
    if k.Some? {
      assert t.profiles[k.value] == p;
      assert Ids(t.profiles) == Ids(s.profiles);
    } else {
      assert t.profiles[|s.profiles|] == p;
    }
    forall path | path in t.files
      ensures t.files[path].file == path && t.files[path] in t.profiles
    {
      if path != p.file {
        var i :| 0 <= i < |s.profiles| && s.profiles[i] == s.files[path];
        assert t.profiles[i] == s.profiles[i];
      }
    }
  }

  lemma RemoveKeepsFiles(s: State, id: Id)
    requires Sound(s)
    ensures var t := AfterRemove(s, id);
            forall path | path in t.files :: t.files[path].file == path && t.files[path] in t.profiles
  {
    WithoutMembers(s.profiles, id);
    var t := AfterRemove(s, id);
    forall path | path in t.files
      ensures t.files[path].file == path && t.files[path] in t.profiles
    {
      assert path in s.files && s.files[path] in s.profiles;
    }
  }

  function Run(s: State, ops: seq<Op>): State
    decreases |ops|
  {
    if ops == [] then s else Run(After(s, ops[0]), ops[1..])
  }

  predicate AllProper(s: State, ops: seq<Op>)
    decreases |ops|
  {
    ops == [] || (Proper(s, ops[0]) && AllProper(After(s, ops[0]), ops[1..]))
  }

  /** Some operation of the run writes the order file. */
  predicate SavesOrderOnce(s: State, ops: seq<Op>)
    decreases |ops|
  {
    ops != [] && (SavesOrder(s, ops[0]) || SavesOrderOnce(After(s, ops[0]), ops[1..]))
  }

  lemma {:induction false} RunKeeps(s: State, ops: seq<Op>)
    requires Sound(s) && AllProper(s, ops)
    ensures Sound(Run(s, ops))
    ensures OrderSaved(s) || SavesOrderOnce(s, ops) ==> OrderSaved(Run(s, ops))
    decreases |ops|
  {
    if ops != [] {
      StepKeeps(s, ops[0]);
      RunKeeps(After(s, ops[0]), ops[1..]);
    }
  }

  // ----- Reloading -----

  /** The profiles that have been written to disk, in the order of memory. */
  function OnDisk(profiles: seq<Profile>, files: map<Path, Profile>): seq<Profile> {
    if profiles == [] then []
    else
      var last := profiles[|profiles| - 1];
      OnDisk(profiles[..|profiles| - 1], files)
      + if last.file in files && files[last.file] == last then [last] else []
  }

  lemma {:induction false} OnDiskMembers(profiles: seq<Profile>, files: map<Path, Profile>)
    ensures forall p :: p in OnDisk(profiles, files) <==> p in profiles && p.file in files && files[p.file] == p
  {
    if profiles != [] {
      var front, last := profiles[..|profiles| - 1], profiles[|profiles| - 1];
      assert profiles == front + [last];
      OnDiskMembers(front, files);
    }
  }

  /** Strictly in the order of the order file, and all known to it. */
  predicate Ascending(order: seq<Id>, s: seq<Profile>) {
    && (forall p | p in s :: p.id in order)
    && forall i, j | 0 <= i < j < |s| :: Position(order, s[i].id).value < Position(order, s[j].id).value
  }

  lemma {:induction false} PositionIn(order: seq<Id>, k: nat)
    requires k < |order| && forall i, j | 0 <= i < j < |order| :: order[i] != order[j]
    ensures Position(order, order[k]) == Some(k)
  {
    if k > 0 {
      PositionIn(order[1..], k - 1);
    }
  }

  lemma MemoryAscends(profiles: seq<Profile>)
    requires DistinctIds(profiles)
    ensures Ascending(Ids(profiles), profiles)
  {
    var order := Ids(profiles);
    forall i | 0 <= i < |profiles|
      ensures profiles[i].id in order && Position(order, profiles[i].id) == Some(i)
    {
      PositionIn(order, i);
      assert order[i] == profiles[i].id;
    }
  }

  lemma {:induction false} OnDiskAscends(order: seq<Id>, profiles: seq<Profile>, files: map<Path, Profile>)
    requires Ascending(order, profiles)
    ensures Ascending(order, OnDisk(profiles, files))
  {
    if profiles != [] {
      var front, last := profiles[..|profiles| - 1], profiles[|profiles| - 1];
      OnDiskAscends(order, front, files);
      OnDiskMembers(front, files);
      var kept := OnDisk(front, files);
      forall i | 0 <= i < |kept|
        ensures Position(order, kept[i].id).value < Position(order, last.id).value
      {
        assert kept[i] in front;
      }
    }
  }

  lemma TailWithin(order: seq<Id>, s: seq<Profile>, t: seq<Profile>)
    requires Ascending(order, s) && s != [] && t != [] && s[0] == t[0]
    requires forall p | p in s :: p in t
    ensures forall p | p in s[1..] :: p in t[1..]
  {
    forall p | p in s[1..]
      ensures p in t[1..]
    {
      var i :| 1 <= i < |s| && s[i] == p;
      assert s[0] in s && s[i] in s;
      assert t == [t[0]] + t[1..];
    }
  }

  lemma FirstIsMember(s: seq<Profile>)
    ensures s != [] ==> s[0] in s
  {
  }

  lemma SameFirst(order: seq<Id>, s: seq<Profile>, t: seq<Profile>)
    requires s != [] && Ascending(order, s) && Ascending(order, t)
    requires forall p :: p in s <==> p in t
    ensures t != [] && s[0] == t[0]
  {
    assert s[0] in t;
    var k :| 0 <= k < |t| && t[k] == s[0];
    assert t[0] in s;
    var m :| 0 <= m < |s| && s[m] == t[0];
    assert k == 0;
  }

  /** Two ascending lists of the same profiles are the same list. */
  lemma {:induction false} AscendingIsUnique(order: seq<Id>, s: seq<Profile>, t: seq<Profile>)
    requires Ascending(order, s) && Ascending(order, t)
    requires forall p :: p in s <==> p in t
    ensures s == t
    decreases |s|
  {
    if s == [] {
      FirstIsMember(t);
    } else {
      SameFirst(order, s, t);
      TailWithin(order, s, t);
      TailWithin(order, t, s);
      AscendingIsUnique(order, s[1..], t[1..]);
    }
  }

  lemma {:induction false} LoadedMembers(dir: seq<Path>, files: map<Path, Profile>)
    requires forall path | path in dir :: path in files
    requires forall path | path in files :: files[path].file == path
    requires forall i, j | 0 <= i < j < |dir| :: dir[i] != dir[j]
    ensures |LoadedAll(dir, files)| == |dir|
    ensures forall i | 0 <= i < |dir| :: LoadedAll(dir, files)[i] == files[dir[i]]
    ensures forall i, j | 0 <= i < j < |dir| :: LoadedAll(dir, files)[i] != LoadedAll(dir, files)[j]
  {
    if dir != [] {
      var front := dir[..|dir| - 1];
      assert dir == front + [dir[|dir| - 1]];
      LoadedMembers(front, files);
    }
  }

  lemma LoadedIsDistinct(dir: seq<Path>, files: map<Path, Profile>)
    requires Lists(dir, files) && forall path | path in files :: files[path].file == path
    requires forall a, b | a in files && b in files && a != b :: files[a].id != files[b].id
    ensures DistinctIds(LoadedAll(dir, files)) && DistinctFiles(LoadedAll(dir, files))
    ensures forall path | path in files :: files[path] in LoadedAll(dir, files)
  {
    var loaded := LoadedAll(dir, files);
    LoadedMembers(dir, files);
    forall path | path in files
      ensures files[path] in loaded
    {
      var i :| 0 <= i < |dir| && dir[i] == path;
      assert loaded[i] == files[path];
    }
  }

  /** Loading files with different identities gives a sound state, whatever the order file says. */
  lemma LoadIsSound(dir: seq<Path>, files: map<Path, Profile>, order: seq<Id>, fallback: Profile)
    requires Lists(dir, files) && forall path | path in files :: files[path].file == path
    requires forall a, b | a in files && b in files && a != b :: files[a].id != files[b].id
    ensures Sound(State(Reloaded(dir, files, order, fallback), files, order))
  {
    LoadedIsDistinct(dir, files);
    SortSorts(order, LoadedAll(dir, files));
    RearrangedIsDistinct(LoadedAll(dir, files), Sort(order, LoadedAll(dir, files)));
  }

  /** Distinct profiles, all known to the order file, sort strictly. */
  lemma SortedAscends(order: seq<Id>, s: seq<Profile>)
    requires SortedBy(order, s) && (forall p | p in s :: p.id in order)
    requires forall i, j | 0 <= i < j < |s| :: s[i].id != s[j].id
    ensures Ascending(order, s)
  {
    forall i, j | 0 <= i < j < |s|
      ensures Position(order, s[i].id).value < Position(order, s[j].id).value
    {
      assert s[i] in s && s[j] in s;
      assert NotAfter(order, s[i], s[j]);
    }
  }

  /** Sorting what was loaded neither loses nor doubles a file. */
  lemma SortedMembers(dir: seq<Path>, files: map<Path, Profile>, sorted: seq<Profile>)
    requires Lists(dir, files) && forall path | path in files :: files[path].file == path
    requires multiset(sorted) == multiset(LoadedAll(dir, files))
    ensures forall p :: p in sorted <==> p.file in files && files[p.file] == p
    ensures forall i, j | 0 <= i < j < |sorted| :: sorted[i] != sorted[j]
  {
    var loaded := LoadedAll(dir, files);
    LoadedMembers(dir, files);
    NoDuplicates(loaded);
    forall i, j | 0 <= i < j < |sorted|
      ensures sorted[i] != sorted[j]
    {
      SingleMeansDistinct(sorted, i, j);
    }
    forall p
      ensures p in sorted <==> p.file in files && files[p.file] == p
    {
      assert p in sorted <==> p in multiset(sorted);
      assert p in loaded <==> p in multiset(loaded);
      if p.file in files && files[p.file] == p {
        assert p.file in dir;
        var i :| 0 <= i < |dir| && dir[i] == p.file;
        assert loaded[i] == p;
      }
    }
  }

  lemma DistinctInMemory(profiles: seq<Profile>, s: seq<Profile>)
    requires DistinctIds(profiles) && forall p | p in s :: p in profiles
    requires forall i, j | 0 <= i < j < |s| :: s[i] != s[j]
    ensures DistinctIds(s)
    ensures forall p | p in s :: p.id in Ids(profiles)
  {
    forall p | p in s
      ensures p.id in Ids(profiles)
    {
      var k :| 0 <= k < |profiles| && profiles[k] == p;
      assert Ids(profiles)[k] == p.id;
    }
    forall i, j | 0 <= i < j < |s|
      ensures s[i].id != s[j].id
    {
      assert s[i] in s && s[j] in s;
    }
  }

  /**
   * Once the order file is written, any sort of the files, read in any directory order, gives the profiles of memory
   * that are on disk, in the order of memory.
   */
  lemma SortGivesMemory(s: State, dir: seq<Path>, sorted: seq<Profile>)
    requires Sound(s) && OrderSaved(s) && Lists(dir, s.files)
    requires SortedBy(s.order, sorted) && multiset(sorted) == multiset(LoadedAll(dir, s.files))
    ensures sorted == OnDisk(s.profiles, s.files)
  {
    SortedMembers(dir, s.files, sorted);
    DistinctInMemory(s.profiles, sorted);
    SortedAscends(s.order, sorted);
    MemoryAscends(s.profiles);
    OnDiskAscends(s.order, s.profiles, s.files);
    OnDiskMembers(s.profiles, s.files);
    AscendingIsUnique(s.order, sorted, OnDisk(s.profiles, s.files));
  }

  lemma {:induction false} OnDiskAll(profiles: seq<Profile>, files: map<Path, Profile>)
    ensures OnDisk(profiles, files) == profiles <==>
              forall p | p in profiles :: p.file in files && files[p.file] == p
    ensures |OnDisk(profiles, files)| <= |profiles|
  {
    if profiles != [] {
      var front, last := profiles[..|profiles| - 1], profiles[|profiles| - 1];
      assert profiles == front + [last];
      OnDiskAll(front, files);
      if OnDisk(profiles, files) == profiles {
        OnDiskMembers(profiles, files);
      }
    }
  }

  /**
   * After any run of operations of which one wrote the order file, restarting gives back the profiles of memory, in
   * their order, exactly when all of them are on disk, or when nothing is and memory holds just the fresh default one.
   */
  lemma RestartGivesMemoryIff(start: State, ops: seq<Op>, dir: seq<Path>, fallback: Profile)
    requires Sound(start) && AllProper(start, ops) && (OrderSaved(start) || SavesOrderOnce(start, ops))
    requires Lists(dir, Run(start, ops).files)
    ensures var s := Run(start, ops);
            Reloaded(dir, s.files, s.order, fallback) == s.profiles <==>
              (if s.files == map[] then s.profiles == [fallback]
               else forall p | p in s.profiles :: p.file in s.files && s.files[p.file] == p)
  {
    RunKeeps(start, ops);
    var s := Run(start, ops);
    SortSorts(s.order, LoadedAll(dir, s.files));
    SortGivesMemory(s, dir, Sort(s.order, LoadedAll(dir, s.files)));
    OnDiskAll(s.profiles, s.files);
    OnDiskMembers(s.profiles, s.files);
    if s.files == map[] {
      assert OnDisk(s.profiles, s.files) == [];
    } else {
      var path :| path in s.files;
      assert s.files[path] in OnDisk(s.profiles, s.files);
    }
  }
}
