/** Pre-write backups: how keys are claimed, what one backup does to its directory, and what
    is left after any number of them. */
module Backups {
  import opened Common
  import opened Text
  import opened BackupNames

  /** How many backups of a client are kept. */
  const KEEP: nat := 5

  // ---- claiming keys from any number of threads ----

  function Max(x: nat, y: nat): nat { if x < y then y else x }

  /** The key a claim takes over the highest one issued so far. */
  function KeyAfter(last: nat, candidate: nat): nat { Max(candidate, SaturatingAdd(last, 1)) }

  /** One caller of `claim_key`: about to load the register, holding what it loaded, or done. */
  datatype Claimer = Starting(candidate: nat) | Loaded(candidate: nat, last: nat) | Claimed(candidate: nat, key: nat)

  datatype Register = Register(
    last: nat,
    claimers: map<nat, Claimer>,
    issued: seq<nat>,   // history: the keys swapped in, oldest first
    takers: seq<nat>)       // history: who swapped each of them in

  datatype Action =
    | Begin(p: nat, candidate: nat)
    | Load(p: nat)
    | Swap(p: nat)      // the exchange succeeds
    | Miss(p: nat)      // the exchange fails, spuriously or not, and reloads

  predicate Enabled(s: Register, a: Action) {
    match a
    case Begin(p, candidate) => p !in s.claimers && candidate <= U64_MAX
    case Load(p) => p in s.claimers && s.claimers[p].Starting?
    case Swap(p) => p in s.claimers && s.claimers[p].Loaded? && s.claimers[p].last == s.last
    case Miss(p) => p in s.claimers && s.claimers[p].Loaded?
  }

  function Apply(s: Register, a: Action): Register
    requires Enabled(s, a)
  {
    match a
    case Begin(p, candidate) => s.(claimers := s.claimers[p := Starting(candidate)])
    case Load(p) => s.(claimers := s.claimers[p := Loaded(s.claimers[p].candidate, s.last)])
    case Miss(p) => s.(claimers := s.claimers[p := Loaded(s.claimers[p].candidate, s.last)])
    case Swap(p) =>
      var candidate := s.claimers[p].candidate;
      var key := KeyAfter(s.claimers[p].last, candidate);
      Register(key, s.claimers[p := Claimed(candidate, key)], s.issued + [key], s.takers + [p])
  }

  ghost predicate Issued(s: Register, p: nat, key: nat)
    requires |s.takers| == |s.issued|
  {
    exists i :: 0 <= i < |s.issued| && s.issued[i] == key && s.takers[i] == p
  }

  ghost predicate Inv(s: Register) {
    && |s.takers| == |s.issued| && s.last <= U64_MAX
    && (forall p :: p in s.claimers ==> s.claimers[p].candidate <= U64_MAX)
    && (forall p :: p in s.claimers && s.claimers[p].Claimed? ==>
          Issued(s, p, s.claimers[p].key) && s.claimers[p].candidate <= s.claimers[p].key)
    && (s.last < U64_MAX ==>
          (forall i, j :: 0 <= i < j < |s.issued| ==> s.issued[i] < s.issued[j])
          && (forall i :: 0 <= i < |s.issued| ==> s.issued[i] <= s.last))
  }

  lemma StepKeeps(s: Register, a: Action)
    requires Inv(s) && Enabled(s, a)
    ensures Inv(Apply(s, a))
  {
    var t := Apply(s, a);
    forall p | p in t.claimers && t.claimers[p].Claimed?
      ensures Issued(t, p, t.claimers[p].key)
    {
      if a.Swap? && p == a.p {
        assert t.issued[|s.issued|] == t.claimers[p].key && t.takers[|s.issued|] == p;
      } else {
        var i :| 0 <= i < |s.issued| && s.issued[i] == s.claimers[p].key && s.takers[i] == p;
        assert t.issued[i] == t.claimers[p].key && t.takers[i] == p;
      }
    }
  }

  ghost predicate Steps(s: Register, run: seq<Action>, t: Register)
    decreases |run|
  {
    if run == [] then s == t
    else Enabled(s, run[0]) && Steps(Apply(s, run[0]), run[1..], t)
  }

  lemma {:induction false} RunKeeps(s: Register, run: seq<Action>, t: Register)
    requires Inv(s) && Steps(s, run, t)
    ensures Inv(t)
    decreases |run|
  {
    if run != [] {
      StepKeeps(s, run[0]);
      RunKeeps(Apply(s, run[0]), run[1..], t);
    }
  }

  /** Until 64 bits are used up, every interleaving hands out keys in strictly increasing
      order, each at least what its caller asked for, and no two callers get the same one. */
  lemma ClaimsAreDistinct(start: nat, run: seq<Action>, t: Register)
    requires Steps(Register(start, map[], [], []), run, t) && t.last < U64_MAX && start <= U64_MAX
    ensures forall i, j :: 0 <= i < j < |t.issued| ==> t.issued[i] < t.issued[j]
    ensures forall p :: p in t.claimers && t.claimers[p].Claimed? ==> t.claimers[p].candidate <= t.claimers[p].key
    ensures forall p, q :: p in t.claimers && q in t.claimers && t.claimers[p].Claimed? && t.claimers[q].Claimed? ==>
              (t.claimers[p].key == t.claimers[q].key ==> p == q)
  {
    RunKeeps(Register(start, map[], [], []), run, t);
    forall p, q | p in t.claimers && q in t.claimers && t.claimers[p].Claimed? && t.claimers[q].Claimed?
                  && t.claimers[p].key == t.claimers[q].key
      ensures p == q
    {
      var i :| 0 <= i < |t.issued| && t.issued[i] == t.claimers[p].key && t.takers[i] == p;
      var j :| 0 <= j < |t.issued| && t.issued[j] == t.claimers[q].key && t.takers[j] == q;
    }
  }

  /** A claim nobody gets in the way of takes three steps and its key; one whose exchange failed takes
      its key at the second try. */
  lemma ClaimByClaim(s: Register, p: nat, candidate: nat)
    requires p !in s.claimers && candidate <= U64_MAX
    ensures exists t :: Steps(s, [Begin(p, candidate), Load(p), Swap(p)], t) && TookKey(s, p, candidate, t)
  {
    var t := Register(KeyAfter(s.last, candidate), s.claimers[p := Claimed(candidate, KeyAfter(s.last, candidate))],
                      s.issued + [KeyAfter(s.last, candidate)], s.takers + [p]);
    var s1 := Apply(s, Begin(p, candidate));
    var s2 := Apply(s1, Load(p));
    assert s.claimers[p := Starting(candidate)][p := Loaded(candidate, s.last)] == s2.claimers;
    assert s2.claimers[p := Claimed(candidate, KeyAfter(s.last, candidate))] == t.claimers;
    assert Steps(s2, [Swap(p)], t);
    assert [Begin(p, candidate), Load(p), Swap(p)][1..] == [Load(p), Swap(p)];
    assert [Load(p), Swap(p)][1..] == [Swap(p)];
    assert Steps(s, [Begin(p, candidate), Load(p), Swap(p)], t);
  }

  /** The key is the candidate, or the next one after the highest issued if that is higher, up to the
      largest there is. */
  ghost predicate TookKey(s: Register, p: nat, candidate: nat, t: Register) {
    var next := if s.last < 0xFFFF_FFFF_FFFF_FFFF then s.last + 1 else 0xFFFF_FFFF_FFFF_FFFF;
    var key := if candidate > next then candidate else next;
    && t.last == key && t.issued == s.issued + [key] && t.takers == s.takers + [p]
    && p in t.claimers && t.claimers[p] == Claimed(candidate, key)
    && forall q :: q != p ==> (q in t.claimers <==> q in s.claimers)
                              && (q in s.claimers ==> t.claimers[q] == s.claimers[q])
  }

  lemma ClaimRetried(s: Register, p: nat)
    requires p in s.claimers && s.claimers[p].Loaded? && s.last <= U64_MAX
    ensures exists t :: Steps(s, [Miss(p), Swap(p)], t) && TookKey(s, p, s.claimers[p].candidate, t)
  {
    var candidate, s1 := s.claimers[p].candidate, Apply(s, Miss(p));
    var t := Apply(s1, Swap(p));
    assert Steps(t, [], t);
    assert Steps(s1, [Swap(p)], t) by { assert [Swap(p)][1..] == []; }
    assert [Miss(p), Swap(p)][1..] == [Swap(p)];
    assert Steps(s, [Miss(p), Swap(p)], t) && TookKey(s, p, candidate, t);
  }

  // ---- the listing of a directory ----

  /** By key, then by name. */
  predicate KeyLess(a: string, b: string) {
    ParseKey(a) < ParseKey(b) || (ParseKey(a) == ParseKey(b) && Less(a, b))
  }

  ghost predicate InOrder(l: seq<string>) {
    forall i, j :: 0 <= i < j < |l| ==> KeyLess(l[i], l[j])
  }

  ghost predicate IsListing(l: seq<string>, names: set<string>) {
    InOrder(l) && forall n :: n in l <==> n in names
  }

  function Elements(l: seq<string>): set<string> { set n | n in l }

  lemma KeyLessTransitive(a: string, b: string, c: string)
    requires KeyLess(a, b) && KeyLess(b, c)
    ensures KeyLess(a, c)
  {
    if Less(a, b) && Less(b, c) { LessTransitive(a, b, c); }
  }

  lemma KeyLessAsymmetric(a: string, b: string)
    requires KeyLess(a, b)
    ensures !KeyLess(b, a) && a != b
  {
    if Less(a, b) { LessAsymmetric(a, b); }
  }

  function Placed(n: string, l: seq<string>): (r: seq<string>)
    ensures forall x :: x in r <==> x == n || x in l
  {
    if l == [] then [n]
    else if KeyLess(n, l[0]) then [n] + l
    else [l[0]] + Placed(n, l[1..])
  }

  lemma {:induction false} PlacedInOrder(n: string, l: seq<string>)
    requires InOrder(l) && n !in l
    ensures InOrder(Placed(n, l))
  {
    if l != [] {
      LessTotal(n, l[0]);
      if KeyLess(n, l[0]) {
        forall i | 0 < i < |l| ensures KeyLess(n, l[i]) { KeyLessTransitive(n, l[0], l[i]); }
      } else {
        PlacedInOrder(n, l[1..]);
        var rest := Placed(n, l[1..]);
        forall i | 0 <= i < |rest| ensures KeyLess(l[0], rest[i]) {
          assert rest[i] in rest;
        }
      }
    }
  }

  /** A directory has one listing. */
  lemma {:induction false} ListingUnique(l: seq<string>, m: seq<string>, names: set<string>)
    requires IsListing(l, names) && IsListing(m, names)
    ensures l == m
    decreases |l|
  {
    if m != [] { assert m[0] in m; }
    if l != [] {
      assert l[0] in l && l[0] in m && m[0] in l;
      var i :| 0 <= i < |l| && l[i] == m[0];
      var j :| 0 <= j < |m| && m[j] == l[0];
      if i > 0 { KeyLessAsymmetric(l[0], l[i]); }
      FirstLeaves(l, names);
      FirstLeaves(m, names);
      ListingUnique(l[1..], m[1..], names - {l[0]});
      assert l == [l[0]] + l[1..] && m == [m[0]] + m[1..];
    }
  }

  lemma FirstLeaves(l: seq<string>, names: set<string>)
    requires IsListing(l, names) && l != []
    ensures IsListing(l[1..], names - {l[0]})
  {
    forall n ensures n in l[1..] <==> n in names - {l[0]} {
      if n in l[1..] {
        var i :| 0 <= i < |l[1..]| && l[1..][i] == n;
        KeyLessAsymmetric(l[0], l[i + 1]);
        assert l[i + 1] in l;
      }
      if n in names && n != l[0] {
        var i :| 0 <= i < |l| && l[i] == n;
        assert l[1..][i - 1] == n;
      }
    }
  }

  /** The listing, as an insertion sort makes it. */
  function ListingOf(names: set<string>): seq<string> { Filed(SortedKeys(names)) }

  function Filed(names: seq<string>): seq<string> {
    if names == [] then [] else Placed(names[0], Filed(names[1..]))
  }

  lemma {:induction false} FiledInOrder(names: seq<string>)
    requires Sorted(names)
    ensures InOrder(Filed(names)) && forall x :: x in Filed(names) <==> x in names
  {
    if names != [] {
      var rest := names[1..];
      FiledInOrder(rest);
      if names[0] in rest {
        var i :| 0 <= i < |rest| && rest[i] == names[0];
        LessIrreflexive(names[i + 1]);
      }
      PlacedInOrder(names[0], Filed(rest));
    }
  }

  lemma Listed(names: set<string>)
    ensures IsListing(ListingOf(names), names)
  {
    FiledInOrder(SortedKeys(names));
  }

  /** The highest key among some names, 0 if there are none. */
  function NewestKey(names: set<string>): nat { LastKey(ListingOf(names)) }

  function LastOf(l: seq<string>): Option<string> { if l == [] then None else Some(l[|l| - 1]) }

  function LastKey(l: seq<string>): nat { if l == [] then 0 else ParseKey(l[|l| - 1]) }

  lemma NewestKeyBounds(names: set<string>)
    ensures forall n :: n in names ==> ParseKey(n) <= NewestKey(names)
    ensures NewestKey(names) == 0 || exists n :: n in names && ParseKey(n) == NewestKey(names)
  {
    Listed(names);
    LastIsNewest(ListingOf(names), names);
  }

  lemma LastIsNewest(l: seq<string>, names: set<string>)
    requires IsListing(l, names)
    ensures forall n :: n in names ==> ParseKey(n) <= LastKey(l)
    ensures LastKey(l) == 0 || exists n :: n in names && ParseKey(n) == LastKey(l)
  {
    if l != [] {
      var last := l[|l| - 1];
      assert last in l && last in names;
      forall n | n in names ensures ParseKey(n) <= ParseKey(last) {
        var i :| 0 <= i < |l| && l[i] == n;
        assert i < |l| - 1 ==> KeyLess(l[i], last);
      }
    }
  }

  /** The last `keep` of a listing. */
  function Newest(l: seq<string>, keep: nat): seq<string> {
    if |l| <= keep then l else l[|l| - keep..]
  }

  lemma TailComesLast(l: seq<string>, d: nat, n: string, k: string)
    requires InOrder(l) && d <= |l| && n in l[..d] && k in l[d..]
    ensures KeyLess(n, k)
  {
    var i :| 0 <= i < d && l[..d][i] == n;
    var j :| 0 <= j < |l| - d && l[d..][j] == k;
    assert l[i] == n && l[d + j] == k;
  }

  /** Of a listing they are as many as are kept, or all there are, and every other name comes before
      all of them. */
  lemma NewestComeLast(l: seq<string>, names: set<string>, keep: nat, n: string, k: string)
    requires IsListing(l, names)
    ensures |Newest(l, keep)| == if |l| < keep then |l| else keep
    ensures n in names && n !in Newest(l, keep) && k in Newest(l, keep) ==> KeyLess(n, k)
  {
    var d := |l| - |Newest(l, keep)|;
    assert l == l[..d] + l[d..] && Newest(l, keep) == l[d..];
    if n in names && n !in l[d..] && k in l[d..] { TailComesLast(l, d, n, k); }
  }

  lemma {:induction false} DropFirst(l: seq<string>, names: set<string>, k: nat)
    requires IsListing(l, names) && k <= |l|
    ensures IsListing(l[k..], names - Elements(l[..k]))
    decreases |l|
  {
    if k == 0 {
      assert l[0..] == l && names - Elements(l[..0]) == names;
    } else {
      FirstLeaves(l, names);
      DropFirst(l[1..], names - {l[0]}, k - 1);
      assert l[1..][k - 1..] == l[k..];
      assert l[..k] == [l[0]] + l[1..][..k - 1];
      assert names - {l[0]} - Elements(l[1..][..k - 1]) == names - Elements(l[..k]);
    }
  }

  lemma ElementsFrom(l: seq<string>, i: nat, end: nat)
    requires i < end <= |l|
    ensures Elements(l[i..end]) == Elements(l[i + 1..end]) + {l[i]}
  {
    assert l[i..end] == [l[i]] + l[i + 1..end];
  }

  /** Taking away everything before the last `keep` leaves just those. */
  lemma Kept(l: seq<string>, names: set<string>, keep: nat)
    requires IsListing(l, names)
    ensures var excess := if |l| > keep then |l| - keep else 0;
            forall m :: IsListing(m, names) ==> IsListing(Newest(m, keep), names - Elements(l[0..excess]))
  {
    var excess := if |l| > keep then |l| - keep else 0;
    DropFirst(l, names, excess);
    assert l[0..excess] == l[..excess];
    assert Newest(l, keep) == l[excess..];
    forall m | IsListing(m, names) ensures m == l { ListingUnique(m, l, names); }
  }

  /** The key a backup takes, given the names in its directory, the register and the clock. */
  function KeyTaken(names: set<string>, last: nat, millis: nat): nat {
    KeyAfter(last, Max(millis * SEQ_SPAN, SaturatingAdd(NewestKey(names), 1)))
  }

  /** Until 64 bits are used up it is past every name on disk, every key issued and the clock, and
      no higher than it must be. */
  lemma KeyTakenIsFresh(names: set<string>, last: nat, millis: nat)
    requires last < U64_MAX && NewestKey(names) < U64_MAX
    ensures var key := KeyTaken(names, last, millis);
            && last < key && millis * SEQ_SPAN <= key && (forall n :: n in names ==> ParseKey(n) < key)
            && (key == last + 1 || key == millis * SEQ_SPAN || key == 1
                || exists n :: n in names && key == ParseKey(n) + 1)
  {
    NewestKeyBounds(names);
  }

  /** The files of every client's backup directory, by name, and the process-wide register. */
  class Store {
    var dirs: map<string, map<string, string>>
    var lastKey: nat

    constructor ()
      ensures dirs == map[] && lastKey == 0
    {
      dirs, lastKey := map[], 0;
    }

    function Dir(client: string): map<string, string>
      reads this
    {
      if client in dirs then dirs[client] else map[]
    }

    /** Every backup of a directory, ascending. */
    method List(client: string) returns (l: seq<string>)
      ensures IsListing(l, Dir(client).Keys)
    {
      l := [];
      var left := Dir(client).Keys;
      while left != {}
        invariant left <= Dir(client).Keys
        invariant IsListing(l, Dir(client).Keys - left)
        decreases |left|
      {
        var n :| n in left;
        PlacedInOrder(n, l);
        l := Placed(n, l);
        left := left - {n};
      }
    }

    method LatestBackup(client: string) returns (latest: Option<string>)
      ensures latest == LastOf(ListingOf(Dir(client).Keys))
    {
      var l := List(client);
      latest := if l == [] then None else Some(l[|l| - 1]);
      Listed(Dir(client).Keys);
      ListingUnique(l, ListingOf(Dir(client).Keys), Dir(client).Keys);
    }

    /** One claim with nobody else at the register. */
    method ClaimKey(candidate: nat) returns (key: nat)
      modifies this`lastKey
      ensures key == lastKey == KeyAfter(old(lastKey), candidate)
    {
      key := Max(candidate, SaturatingAdd(lastKey, 1));
      lastKey := key;
    }

    /** Past both the newest name on disk and the newest key this process has issued. The requires
        rules out an overflow of the source's multiplication. */
    method NextKey(client: string, millis: nat) returns (key: nat)
      requires millis * SEQ_SPAN <= U64_MAX
      modifies this`lastKey
      ensures key == lastKey == KeyTaken(Dir(client).Keys, old(lastKey), millis)
    {
      var l := List(client);
      Listed(Dir(client).Keys);
      ListingUnique(l, ListingOf(Dir(client).Keys), Dir(client).Keys);
      key := ClaimKey(Max(millis * SEQ_SPAN, SaturatingAdd(LastKey(l), 1)));
    }

    method Put(client: string, files: map<string, string>)
      modifies this`dirs
      ensures Dir(client) == old(Dir(client)) + files
      ensures dirs - {client} == old(dirs) - {client}
    {
      dirs := dirs[client := Dir(client) + files];
    }

    method WriteFile(client: string, name: string, content: string)
      modifies this`dirs
      ensures Dir(client) == old(Dir(client))[name := content]
      ensures dirs - {client} == old(dirs) - {client}
    {
      dirs := dirs[client := Dir(client)[name := content]];
    }

    method Remove(client: string, name: string)
      modifies this`dirs
      ensures Dir(client) == old(Dir(client)) - {name}
      ensures dirs - {client} == old(dirs) - {client}
    {
      dirs := dirs[client := Dir(client) - {name}];
    }

    /** Removes all but the newest `keep`, from the newer ones on. */
    method Prune(client: string, keep: nat)
      modifies this`dirs
      ensures Dir(client) == Cut(old(Dir(client)), keep)
      ensures dirs - {client} == old(dirs) - {client}
    {
      var entries := List(client);
      ghost var before := Dir(client);
      var excess := if |entries| > keep then |entries| - keep else 0;
      var i := excess;
      while i > 0
        invariant 0 <= i <= excess
        invariant Dir(client) == before - Elements(entries[i..excess])
        invariant dirs - {client} == old(dirs) - {client}
      {
        i := i - 1;
        Remove(client, entries[i]);
        ElementsFrom(entries, i, excess);
      }
      Kept(entries, before.Keys, keep);
      assert Dir(client).Keys == before.Keys - Elements(entries[0..excess]);
      OnlyTheNewest(before, entries, keep, Dir(client));
    }

    /** Steps past every name another process has put there since the listing. */
    method StepPast(client: string, name: string, first: nat) returns (target: string)
      requires first == lastKey <= U64_MAX && NewestKey(Dir(client).Keys) < U64_MAX
      modifies this`lastKey
      ensures old(lastKey) <= lastKey <= U64_MAX
      ensures target == BackupName(lastKey, name) && target !in Dir(client)
      ensures BackupName(first, name) !in Dir(client) ==> lastKey == first
    {
      var key := first;
      target := BackupName(key, name);
      while target in Dir(client)
        invariant old(lastKey) <= key == lastKey <= U64_MAX
        invariant target == BackupName(key, name)
        invariant BackupName(first, name) !in Dir(client) ==> key == first
        decreases U64_MAX - key
      {
        TakenIsBelow(Dir(client).Keys, key, name);
        key := ClaimKey(key + 1);
        target := BackupName(key, name);
      }
    }

    /** Writes the copy under `key` or, if another process took that name, the next free one, and
        prunes. */
    method Copy(client: string, name: string, content: string, key: nat, keep: nat) returns (target: string)
      requires key == lastKey <= U64_MAX && NewestKey(Dir(client).Keys) < U64_MAX
      modifies this
      ensures old(lastKey) <= lastKey <= U64_MAX && target == BackupName(lastKey, name)
      ensures target !in old(Dir(client)) && Dir(client) == Cut(old(Dir(client))[target := content], keep)
      ensures BackupName(key, name) !in old(Dir(client)) ==> lastKey == key
      ensures dirs - {client} == old(dirs) - {client}
    {
      target := StepPast(client, name, key);
      WriteFile(client, target, content);
      Prune(client, keep);
    }

    /** The same in a directory into which another process has put `arrivals` since the listing. */
    method CopyAmong(client: string, name: string, content: string, key: nat, keep: nat, arrivals: map<string, string>)
      returns (target: string)
      requires key == lastKey <= U64_MAX && NewestKey((Dir(client) + arrivals).Keys) < U64_MAX
      modifies this
      ensures old(lastKey) <= lastKey <= U64_MAX && target == BackupName(lastKey, name)
      ensures target !in old(Dir(client)) && target !in arrivals
      ensures Dir(client) == Cut((old(Dir(client)) + arrivals)[target := content], keep)
      ensures BackupName(key, name) !in old(Dir(client)) + arrivals ==> lastKey == key
      ensures dirs - {client} == old(dirs) - {client}
    {
      Put(client, arrivals);
      target := Copy(client, name, content, key, keep);
    }

    /** Copies a file into the client's directory and prunes. `arrivals` is what another process
        has put there since the listing; its names are stepped past, never written over. The
        requires rule out a 64-bit overflow. */
    method BackupFileAt(client: string, name: string, content: string, millis: nat, keep: nat,
                        arrivals: map<string, string>) returns (target: string)
      requires millis * SEQ_SPAN <= U64_MAX && lastKey < U64_MAX
      requires NewestKey((Dir(client) + arrivals).Keys) < U64_MAX
      modifies this
      ensures KeyTaken(old(Dir(client)).Keys, old(lastKey), millis) <= lastKey <= U64_MAX
      ensures target == BackupName(lastKey, name) && target !in old(Dir(client)) && target !in arrivals
      ensures Dir(client) == Cut((old(Dir(client)) + arrivals)[target := content], keep)
      ensures arrivals == map[] ==> lastKey == KeyTaken(old(Dir(client)).Keys, old(lastKey), millis)
      ensures dirs - {client} == old(dirs) - {client}
    {
      FirstFree(Dir(client), arrivals, lastKey, millis, name);
      var key := NextKey(client, millis);
      target := CopyAmong(client, name, content, key, keep, arrivals);
    }

    /** A backup with no other process at work is the next step of its client's run. */
    method BackupFile(client: string, name: string, content: string, millis: nat) returns (target: string)
      requires millis * SEQ_SPAN <= U64_MAX && lastKey < U64_MAX && NewestKey(Dir(client).Keys) < U64_MAX
      modifies this
      ensures Shelf(Dir(client), lastKey)
              == BackedUp(Shelf(old(Dir(client)), old(lastKey)), Job(name, content, millis, old(lastKey), false), KEEP)
      ensures target == BackupName(lastKey, name)
      ensures dirs - {client} == old(dirs) - {client}
    {
      NobodyCame(Dir(client));
      OneStep(Dir(client), lastKey, name, content, millis, KEEP);
      target := BackupFileAt(client, name, content, millis, KEEP, map[]);
    }
  }

  lemma OneStep(dir: map<string, string>, last: nat, name: string, content: string, millis: nat, keep: nat)
    ensures var key := KeyTaken(dir.Keys, last, millis);
            BackedUp(Shelf(dir, last), Job(name, content, millis, last, false), keep)
            == Shelf(Cut(dir[BackupName(key, name) := content], keep), key)
  {
  }

  /** A name that is taken has no key above the newest. */
  lemma TakenIsBelow(names: set<string>, key: nat, name: string)
    requires key <= U64_MAX && BackupName(key, name) in names
    ensures key <= NewestKey(names)
  {
    NewestKeyBounds(names);
    NameRoundTrip(key, name);
  }

  lemma NewestOfMore(names: set<string>, more: set<string>)
    requires names <= more
    ensures NewestKey(names) <= NewestKey(more)
  {
    NewestKeyBounds(names);
    NewestKeyBounds(more);
  }

  lemma FirstFree(dir: map<string, string>, arrivals: map<string, string>, last: nat, millis: nat, name: string)
    requires last < U64_MAX && NewestKey((dir + arrivals).Keys) < U64_MAX && millis * SEQ_SPAN <= U64_MAX
    ensures var key := KeyTaken(dir.Keys, last, millis);
            key <= U64_MAX && (arrivals == map[] ==> BackupName(key, name) !in dir + arrivals)
  {
    NewestOfMore(dir.Keys, (dir + arrivals).Keys);
    FreshKey(dir.Keys, last, millis, name);
  }

  lemma FreshKey(names: set<string>, last: nat, millis: nat, name: string)
    requires last < U64_MAX && NewestKey(names) < U64_MAX && millis * SEQ_SPAN <= U64_MAX
    ensures var key := KeyTaken(names, last, millis);
            last < key <= U64_MAX && NewestKey(names) < key && BackupName(key, name) !in names
  {
    var key := KeyTaken(names, last, millis);
    if BackupName(key, name) in names { TakenIsBelow(names, key, name); }
  }

  /** The name of a backup reads back as its key, and comes after every name of a lower key. */
  lemma AboveAll(names: set<string>, key: nat, name: string)
    requires NewestKey(names) < key <= U64_MAX
    ensures ParseKey(BackupName(key, name)) == key
    ensures forall n :: n in names ==> KeyLess(n, BackupName(key, name))
  {
    NewestKeyBounds(names);
    NameRoundTrip(key, name);
  }

  lemma NobodyCame(dir: map<string, string>)
    ensures dir + map[] == dir
  {
  }

  lemma SameFiles(full: map<string, string>, names: seq<string>, left: map<string, string>)
    requires Within(left, full) && forall n :: n in names <==> n in left
    ensures left == map n | n in full && n in names :: full[n]
  {
  }

  /** A directory cut down to its newest files is one map. */
  lemma OnlyTheNewest(full: map<string, string>, l: seq<string>, keep: nat, left: map<string, string>)
    requires IsListing(l, full.Keys) && IsListing(Newest(l, keep), left.Keys) && Within(left, full)
    ensures left == Cut(full, keep)
  {
    Listed(full.Keys);
    ListingUnique(l, ListingOf(full.Keys), full.Keys);
    SameFiles(full, Newest(l, keep), left);
  }

  /** Every file of `m` is in `n`, with the same content. */
  predicate Within(m: map<string, string>, n: map<string, string>) {
    forall f :: f in m ==> f in n && m[f] == n[f]
  }

  // ---- runs of backups ----

  /** One client's directory, and the process-wide register. */
  datatype Shelf = Shelf(dir: map<string, string>, last: nat)

  /** One call of `backup_file_at` for that client: what it copies and what the clock shows.
      `elsewhere` is how far backups of other clients have moved the register meanwhile;
      `restarted` says that a new process does it, whose register began at 0. */
  datatype Job = Job(name: string, content: string, millis: nat, elsewhere: nat, restarted: bool)

  /** What pruning leaves. */
  function Cut(full: map<string, string>, keep: nat): map<string, string> {
    map n | n in full && n in Newest(ListingOf(full.Keys), keep) :: full[n]
  }

  /** The register as the job finds it. */
  function Found(s: Shelf, job: Job): nat { Max(if job.restarted then 0 else s.last, job.elsewhere) }

  function JobKey(s: Shelf, job: Job): nat { KeyTaken(s.dir.Keys, Found(s, job), job.millis) }

  function Target(s: Shelf, job: Job): string { BackupName(JobKey(s, job), job.name) }

  /** What one backup makes of the directory with no other process at work in it. */
  function BackedUp(s: Shelf, job: Job, keep: nat): Shelf {
    Shelf(Cut(s.dir[Target(s, job) := job.content], keep), JobKey(s, job))
  }

  /** The directory and the register after a run of backups. */
  function After(s: Shelf, jobs: seq<Job>, keep: nat): Shelf {
    if jobs == [] then s else BackedUp(After(s, jobs[..|jobs| - 1], keep), jobs[|jobs| - 1], keep)
  }

  /** The names the run wrote, in order. */
  function Targets(s: Shelf, jobs: seq<Job>, keep: nat): (ts: seq<string>)
    ensures |ts| == |jobs|
  {
    if jobs == [] then []
    else
      var before := jobs[..|jobs| - 1];
      Targets(s, before, keep) + [Target(After(s, before, keep), jobs[|jobs| - 1])]
  }

  /** The run cannot use up 64 bits: the clock, the register and the names on disk are at most
      `high`, and each backup goes at most one past the highest. */
  ghost predicate Room(s: Shelf, jobs: seq<Job>, high: nat) {
    && high + |jobs| < U64_MAX && s.last <= high
    && (forall n :: n in s.dir ==> ParseKey(n) <= high)
    && (forall i :: 0 <= i < |jobs| ==> jobs[i].millis * SEQ_SPAN <= high && jobs[i].elsewhere <= high)
  }

  /** While keys, register and clock are at most `high`, a backup takes a key past all of them but
      the clock, and at most one past the highest. */
  lemma OneMore(t: Shelf, job: Job, keep: nat, high: nat)
    requires high + 1 < U64_MAX && t.last <= high && job.millis * SEQ_SPAN <= high && job.elsewhere <= high
    requires forall n :: n in t.dir ==> ParseKey(n) <= high
    ensures var key := JobKey(t, job);
            && key <= high + 1 && (!job.restarted ==> t.last < key) && ParseKey(Target(t, job)) == key
            && (forall n :: n in t.dir ==> ParseKey(n) < key)
            && (forall n :: n in BackedUp(t, job, keep).dir ==> ParseKey(n) <= high + 1)
  {
    NewestKeyBounds(t.dir.Keys);
    KeyTakenIsFresh(t.dir.Keys, Found(t, job), job.millis);
    NameRoundTrip(JobKey(t, job), job.name);
    var full := t.dir[Target(t, job) := job.content];
    forall n | n in Cut(full, keep) ensures n == Target(t, job) || n in t.dir { assert n in full.Keys; }
  }

  /** The keys stay below `high` plus one for each backup. */
  lemma {:induction false} RoomIsLeft(s: Shelf, jobs: seq<Job>, keep: nat, high: nat)
    requires Room(s, jobs, high)
    ensures var t := After(s, jobs, keep);
            t.last <= high + |jobs| && forall n :: n in t.dir ==> ParseKey(n) <= high + |jobs|
    decreases |jobs|
  {
    if jobs != [] {
      var before := jobs[..|jobs| - 1];
      RoomIsLeft(s, before, keep, high);
      OneMore(After(s, before, keep), jobs[|jobs| - 1], keep, high + |before|);
    }
  }

  /** The next name of a run is above everything there is. */
  lemma NextTarget(s: Shelf, jobs: seq<Job>, keep: nat, high: nat)
    requires Room(s, jobs, high) && jobs != []
    ensures var t := After(s, jobs[..|jobs| - 1], keep);
            var target := Target(t, jobs[|jobs| - 1]);
            && ParseKey(target) == After(s, jobs, keep).last
            && (!jobs[|jobs| - 1].restarted ==> t.last < ParseKey(target))
            && forall n :: n in t.dir ==> ParseKey(n) < ParseKey(target)
  {
    var before := jobs[..|jobs| - 1];
    RoomIsLeft(s, before, keep, high);
    OneMore(After(s, before, keep), jobs[|jobs| - 1], keep, high + |before|);
  }

  /** With no other process at work, one backup takes a listing to the next of its run. */
  lemma OneBackup(dir: map<string, string>, target: string, l: seq<string>)
    requires IsListing(l, dir.Keys) && forall n :: n in dir ==> KeyLess(n, target)
    ensures IsListing(l + [target], dir.Keys + {target})
  {
  }

  /** A directory's listing after a run of backups, each pruned to `keep`. */
  function Survivors(l: seq<string>, targets: seq<string>, keep: nat): seq<string> {
    if targets == [] then l
    else Newest(Survivors(l, targets[..|targets| - 1], keep) + [targets[|targets| - 1]], keep)
  }

  lemma NewestTwice(l: seq<string>, last: string, keep: nat)
    ensures Newest(Newest(l, keep) + [last], keep) == Newest(l + [last], keep)
  {
  }

  /** Pruning after every write leaves what pruning once at the end would. */
  lemma {:induction false} RunSurvivors(l: seq<string>, targets: seq<string>, keep: nat)
    requires targets != []
    ensures Survivors(l, targets, keep) == Newest(l + targets, keep)
    ensures keep >= 1 ==>
              var left := Survivors(l, targets, keep);
              left != [] && left[|left| - 1] == targets[|targets| - 1]
  {
    var before, last := targets[..|targets| - 1], targets[|targets| - 1];
    assert l + targets == (l + before) + [last];
    if before != [] {
      RunSurvivors(l, before, keep);
      NewestTwice(l + before, last, keep);
    } else {
      assert l + before == l;
    }
  }

  lemma {:induction false} RunListing(s: Shelf, l: seq<string>, jobs: seq<Job>, keep: nat, high: nat)
    requires Room(s, jobs, high) && IsListing(l, s.dir.Keys)
    ensures IsListing(Survivors(l, Targets(s, jobs, keep), keep), After(s, jobs, keep).dir.Keys)
    decreases |jobs|
  {
    if jobs != [] {
      var before, job := jobs[..|jobs| - 1], jobs[|jobs| - 1];
      RunListing(s, l, before, keep, high);
      NextTarget(s, jobs, keep, high);
      var t := After(s, before, keep);
      var target := Target(t, job);
      var m := Survivors(l, Targets(s, before, keep), keep);
      OneBackup(t.dir, target, m);
      CutListing(t.dir[target := job.content], m + [target], keep);
      assert Targets(s, jobs, keep)[..|before|] == Targets(s, before, keep);
    }
  }

  lemma CutListing(full: map<string, string>, l: seq<string>, keep: nat)
    requires IsListing(l, full.Keys)
    ensures IsListing(Newest(l, keep), Cut(full, keep).Keys)
  {
    Listed(full.Keys);
    ListingUnique(l, ListingOf(full.Keys), full.Keys);
    Kept(l, full.Keys, keep);
    assert forall n :: n in Newest(l, keep) <==> n in Cut(full, keep).Keys;
  }

  /** Keys that rise strictly, from above those of `names` and up to `last`. */
  ghost predicate Rising(names: set<string>, targets: seq<string>, last: nat) {
    && (forall i, j :: 0 <= i < j < |targets| ==> ParseKey(targets[i]) < ParseKey(targets[j]))
    && (forall i :: 0 <= i < |targets| ==> ParseKey(targets[i]) <= last)
    && (forall n, i :: n in names && 0 <= i < |targets| ==> ParseKey(n) < ParseKey(targets[i]))
  }

  lemma RisesOn(names: set<string>, targets: seq<string>, last: nat, target: string)
    requires Rising(names, targets, last) && (targets != [] ==> last < ParseKey(target))
    requires targets == [] ==> forall n :: n in names ==> ParseKey(n) < ParseKey(target)
    ensures Rising(names, targets + [target], ParseKey(target))
  {
    forall n | n in names ensures ParseKey(n) < ParseKey(target) {
      if targets != [] { assert ParseKey(n) < ParseKey(targets[0]); }
    }
  }

  /** A file above all others outlives pruning. */
  lemma NewestStays(full: map<string, string>, target: string, keep: nat)
    requires keep >= 1 && target in full && forall n :: n in full && n != target ==> ParseKey(n) < ParseKey(target)
    ensures target in Cut(full, keep)
  {
    Listed(full.Keys);
    var l := ListingOf(full.Keys);
    var i :| 0 <= i < |l| && l[i] == target;
    var last := l[|l| - 1];
    assert last in l;
    if i < |l| - 1 { KeyLessAsymmetric(l[i], last); }
    assert l[|l| - 1] in Newest(l, keep);
  }

  lemma LastIsThere(s: Shelf, jobs: seq<Job>, keep: nat, high: nat) returns (n: string)
    requires Room(s, jobs, high) && jobs != [] && keep >= 1
    ensures n in After(s, jobs, keep).dir && ParseKey(n) == After(s, jobs, keep).last
  {
    NextTarget(s, jobs, keep, high);
    var t, job := After(s, jobs[..|jobs| - 1], keep), jobs[|jobs| - 1];
    n := Target(t, job);
    NewestStays(t.dir[n := job.content], n, keep);
  }

  /** What the last backup wrote is still there when the next begins, so that one is later even in
      a new process. */
  lemma NextIsLater(s: Shelf, jobs: seq<Job>, keep: nat, high: nat)
    requires Room(s, jobs, high) && |jobs| >= 2 && (keep >= 1 || !jobs[|jobs| - 1].restarted)
    ensures After(s, jobs[..|jobs| - 1], keep).last < After(s, jobs, keep).last
  {
    if jobs[|jobs| - 1].restarted {
      var n := LastIsThere(s, jobs[..|jobs| - 1], keep, high);
      LaterThan(s, jobs, keep, high, n);
    } else {
      NextTarget(s, jobs, keep, high);
    }
  }

  lemma LaterThan(s: Shelf, jobs: seq<Job>, keep: nat, high: nat, n: string)
    requires Room(s, jobs, high) && jobs != [] && n in After(s, jobs[..|jobs| - 1], keep).dir
    ensures ParseKey(n) < After(s, jobs, keep).last
  {
    NextTarget(s, jobs, keep, high);
  }

  /** A process goes on with its register, or finds the last backup on disk. */
  predicate Continued(jobs: seq<Job>, keep: nat) {
    keep >= 1 || forall i :: 0 <= i < |jobs| ==> !jobs[i].restarted
  }

  lemma {:induction false} KeysRise(s: Shelf, jobs: seq<Job>, keep: nat, high: nat)
    requires Room(s, jobs, high) && Continued(jobs, keep)
    ensures Rising(s.dir.Keys, Targets(s, jobs, keep), After(s, jobs, keep).last)
    decreases |jobs|
  {
    if jobs != [] {
      var before := jobs[..|jobs| - 1];
      KeysRise(s, before, keep, high);
      NextTarget(s, jobs, keep, high);
      if before != [] { NextIsLater(s, jobs, keep, high); }
      RisesOn(s.dir.Keys, Targets(s, before, keep), After(s, before, keep).last,
              Target(After(s, before, keep), jobs[|jobs| - 1]));
    }
  }

  /** A file of `t` that the jobs wrote holds what was copied into it, any other what it held in `s`. */
  ghost predicate Holding(s: Shelf, targets: seq<string>, jobs: seq<Job>, t: Shelf) {
    && |targets| == |jobs|
    && (forall i :: 0 <= i < |jobs| && targets[i] in t.dir ==> t.dir[targets[i]] == jobs[i].content)
    && (forall n :: n in s.dir && n in t.dir ==> t.dir[n] == s.dir[n])
  }

  /** Every file the run leaves holds what was copied into it. */
  lemma {:induction false} RunContents(s: Shelf, jobs: seq<Job>, keep: nat, high: nat)
    requires Room(s, jobs, high)
    ensures Holding(s, Targets(s, jobs, keep), jobs, After(s, jobs, keep))
    decreases |jobs|
  {
    if jobs != [] && keep == 0 {
      assert After(s, jobs, keep).dir == map[];
    } else if jobs != [] {
      var before := jobs[..|jobs| - 1];
      RunContents(s, before, keep, high);
      KeysRise(s, jobs, keep, high);
      LastJob(jobs);
      ContentsStay(s, Targets(s, before, keep), before, After(s, before, keep), jobs[|jobs| - 1], keep);
    }
  }

  lemma LastJob(jobs: seq<Job>)
    requires jobs != []
    ensures jobs == jobs[..|jobs| - 1] + [jobs[|jobs| - 1]]
  {
  }

  lemma ContentsStay(s: Shelf, targets: seq<string>, jobs: seq<Job>, t: Shelf, job: Job, keep: nat)
    requires Holding(s, targets, jobs, t)
    requires Rising(s.dir.Keys, targets + [Target(t, job)], JobKey(t, job))
    ensures Holding(s, targets + [Target(t, job)], jobs + [job], BackedUp(t, job, keep))
  {
    var u, all := BackedUp(t, job, keep), targets + [Target(t, job)];
    assert all[|targets|] == Target(t, job);
    forall n | n in u.dir && n != Target(t, job) ensures n in t.dir && u.dir[n] == t.dir[n] {
      assert n in t.dir[Target(t, job) := job.content].Keys;
    }
    forall i | 0 <= i < |targets| ensures targets[i] != Target(t, job) {
      assert ParseKey(all[i]) < ParseKey(all[|targets|]);
    }
    forall n | n in s.dir ensures n != Target(t, job) {
      assert ParseKey(n) < ParseKey(all[|targets|]);
    }
  }

  /** After any run of backups of a client, by one process or by several one after the other,
      whatever the clock shows and whatever other clients' backups do between them: exactly the
      last `keep` of everything that was there and was written are left, in write order; and with
      keep >= 1 the keys written rise strictly, above every key that was there, and the newest
      write comes last, which is what `LatestBackup` returns. */
  lemma RunOfBackups(s: Shelf, jobs: seq<Job>, keep: nat, high: nat)
    requires Room(s, jobs, high) && jobs != []
    ensures var targets, t := Targets(s, jobs, keep), After(s, jobs, keep);
            && ListingOf(t.dir.Keys) == Newest(ListingOf(s.dir.Keys) + targets, keep)
            && (Continued(jobs, keep) ==> Rising(s.dir.Keys, targets, t.last))
            && (keep >= 1 ==> LastOf(ListingOf(t.dir.Keys)) == Some(targets[|targets| - 1]))
  {
    if Continued(jobs, keep) { KeysRise(s, jobs, keep, high); }
    RunListed(s, jobs, keep, high);
    if keep >= 1 { EndsWith(ListingOf(s.dir.Keys), Targets(s, jobs, keep), keep); }
  }

  lemma RunListed(s: Shelf, jobs: seq<Job>, keep: nat, high: nat)
    requires Room(s, jobs, high) && jobs != []
    ensures ListingOf(After(s, jobs, keep).dir.Keys) == Newest(ListingOf(s.dir.Keys) + Targets(s, jobs, keep), keep)
  {
    var l, left := ListingOf(s.dir.Keys), After(s, jobs, keep).dir.Keys;
    Listed(s.dir.Keys);
    RunListing(s, l, jobs, keep, high);
    RunSurvivors(l, Targets(s, jobs, keep), keep);
    Listed(left);
    ListingUnique(ListingOf(left), Survivors(l, Targets(s, jobs, keep), keep), left);
  }

  lemma EndsWith(l: seq<string>, targets: seq<string>, keep: nat)
    requires targets != [] && keep >= 1
    ensures LastOf(Newest(l + targets, keep)) == Some(targets[|targets| - 1])
  {
  }
}
