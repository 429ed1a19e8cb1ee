/** Applying a directory of numbered migrations (internal/store/migrate.go). */
module Migrate {
  import opened Options
  import Gathering
  import opened Numerals

  /** A file of the directory as it lies there, its body hashed. */
  datatype Entry = Entry(base: string, checksum: string)

  /** What its name makes of it. */
  datatype File =
    | Misnamed                                               // not NNNN_description.sql
    | Unnumbered                                             // a prefix that is no number
    | Numbered(version: int, name: string, checksum: string)

  const SUFFIX := ".sql"

  function TrimSuffix(base: string): string {
    var n := |base| - |SUFFIX|;
    if 0 <= n && base[n..] == SUFFIX then base[..n] else base
  }

  /** strings.Cut at the first underscore: what comes before and after. */
  function Cut(s: string): Option<(string, string)> {
    if s == "" then None
    else if s[0] == '_' then Some(("", s[1..]))
    else
      match Cut(s[1..])
      case None => None
      case Some((prefix, rest)) => Some(([s[0]] + prefix, rest))
  }

  function Parsed(e: Entry): File {
    match Cut(TrimSuffix(e.base))
    case None => Misnamed
    case Some((prefix, rest)) =>
      match Atoi(prefix)
      case None => Unnumbered
      case Some(version) => Numbered(version, rest, e.checksum)
  }

  function Files(entries: seq<Entry>): (files: seq<File>)
    ensures |files| == |entries|
  {
    seq(|entries|, i requires 0 <= i < |entries| => Parsed(entries[i]))
  }

  lemma {:induction false} CutAt(prefix: string, rest: string)
    requires '_' !in prefix
    ensures Cut(prefix + "_" + rest) == Some((prefix, rest))
  {
    var s := prefix + "_" + rest;
    if prefix == "" {
      assert s[1..] == rest;
    } else {
      assert prefix[0] in prefix && forall c | c in prefix[1..] :: c in prefix;
      assert s[1..] == prefix[1..] + "_" + rest;
      CutAt(prefix[1..], rest);
      assert [s[0]] + prefix[1..] == prefix;
    }
  }

  /** A name as migrations are given theirs, NNNN_description.sql, is read as it was meant. */
  lemma {:induction false} NamesAreRead(version: nat, name: string, checksum: string)
    requires version <= MAX_INT
    ensures Parsed(Entry(Decimal(version, 4) + "_" + name + SUFFIX, checksum)) == Numbered(version, name, checksum)
  {
    var prefix := Decimal(version, 4);
    var stem := prefix + "_" + name;
    assert (stem + SUFFIX)[|stem|..] == SUFFIX && (stem + SUFFIX)[..|stem|] == stem;
    assert prefix[0] in prefix;
    CutAt(prefix, name);
  }

  datatype Problem =
    | NoMigrations
    | BadName
    | BadVersion
    | SharedVersion(version: int)
    | Changed(version: int)      // the file of an applied migration is not the one applied
    | Backdated(version: int)    // older than one applied, and not applied itself
    | Failed(version: int)       // the database would not apply it

  predicate Distinct(files: seq<File>) {
    forall i, j | 0 <= i < j < |files| && files[i].Numbered? && files[j].Numbered? :: files[i].version != files[j].version
  }

  /** A directory that can be loaded. */
  predicate Loadable(files: seq<File>) {
    files != [] && (forall f | f in files :: f.Numbered?) && Distinct(files)
  }

  predicate Sorted(files: seq<File>) {
    && (forall f | f in files :: f.Numbered?)
    && forall i, j | 0 <= i < j < |files| :: files[i].version < files[j].version
  }

  predicate Before(files: seq<File>, f: File) {
    f.Numbered? && forall g | g in files :: g.Numbered? && g.version < f.version
  }

  lemma {:induction false} SortedThen(files: seq<File>, f: File)
    requires Sorted(files) && Before(files, f)
    ensures Sorted(files + [f])
  {
    assert forall i | 0 <= i < |files| :: files[i] in files;
  }

  lemma {:induction false} InitIsBefore(files: seq<File>)
    requires Sorted(files) && files != []
    ensures Sorted(files[..|files| - 1]) && Before(files[..|files| - 1], files[|files| - 1])
  {
    assert files[|files| - 1] in files;
    assert forall i | 0 <= i < |files| - 1 :: files[i] in files;
  }

  /** A file put among others, in order of version. */
  function Placed(sorted: seq<File>, f: File): (more: seq<File>)
    requires Sorted(sorted) && f.Numbered? && forall g | g in sorted :: g.version != f.version
    ensures Sorted(more) && forall g :: g in more <==> g in sorted || g == f
  {
    if sorted == [] then [f]
    else
      var init, last := sorted[..|sorted| - 1], sorted[|sorted| - 1];
      InitIsBefore(sorted);
      Gathering.InitAndLast(sorted);
      if last.version < f.version then
        SortedThen(sorted, f);
        sorted + [f]
      else
        SortedThen(Placed(init, f), last);
        Placed(init, f) + [last]
  }

  /** The files of a directory by version, or why it is refused. */
  method Load(entries: seq<Entry>) returns (loaded: Result<seq<File>, Problem>)
    ensures loaded.Ok? <==> Loadable(Files(entries))
    ensures loaded.Ok? ==> Sorted(loaded.value) && forall f :: f in loaded.value <==> f in Files(entries)
    ensures loaded.Err? ==> IsLoadProblem(loaded.error)
  {
    ghost var files := Files(entries);
    if |entries| == 0 {
      return Err(NoMigrations);
    }
    var out: seq<File> := [];
    var seen: set<int> := {};
    for n := 0 to |entries|
      invariant LoadedSoFar(files[..n], out, seen)
    {
      var f := Parsed(entries[n]);
      assert f == files[n] && f in files;
      if f.Misnamed? {
        return Err(BadName);
      }
      if f.Unnumbered? {
        return Err(BadVersion);
      }
      if f.version in seen {
        SharesVersion(files, n, out, seen);
        return Err(SharedVersion(f.version));
      }
      LoadedThen(files[..n], out, seen, f);
      Gathering.PrefixThen(files, n);
      seen := seen + {f.version};
      out := Placed(out, f);
    }
    assert files[..|entries|] == files;
    return Ok(out);
  }

  ghost predicate LoadedSoFar(files: seq<File>, out: seq<File>, seen: set<int>) {
    && Sorted(out) && (forall f :: f in out <==> f in files) && Distinct(files)
    && (forall f | f in out :: f.version in seen) && forall v | v in seen :: exists f :: f in out && f.version == v
  }

  lemma {:induction false} LoadedThen(files: seq<File>, out: seq<File>, seen: set<int>, f: File)
    requires LoadedSoFar(files, out, seen) && f.Numbered? && f.version !in seen
    ensures LoadedSoFar(files + [f], Placed(out, f), seen + {f.version})
  {
    DistinctThen(files, out, seen, f);
    SeenThen(out, seen, f);
  }

  lemma {:induction false} DistinctThen(files: seq<File>, out: seq<File>, seen: set<int>, f: File)
    requires LoadedSoFar(files, out, seen) && f.Numbered? && f.version !in seen
    ensures Distinct(files + [f])
  {
    assert forall i | 0 <= i < |files| :: files[i] in out;
  }

  lemma {:induction false} SeenThen(out: seq<File>, seen: set<int>, f: File)
    requires Sorted(out) && f.Numbered? && f.version !in seen && (forall g | g in out :: g.version in seen)
    requires forall v | v in seen :: exists g :: g in out && g.version == v
    ensures var more, placed := seen + {f.version}, Placed(out, f);
            && Sorted(placed) && (forall g | g in placed :: g.version in more)
            && forall v | v in more :: exists g :: g in placed && g.version == v
  {
    var placed := Placed(out, f);
    assert f in placed;
    forall v | v in seen ensures exists g :: g in placed && g.version == v {
      var g :| g in out && g.version == v;
      assert g in placed;
    }
  }

  lemma {:induction false} SharesVersion(files: seq<File>, n: nat, out: seq<File>, seen: set<int>)
    requires n < |files| && LoadedSoFar(files[..n], out, seen) && files[n].Numbered? && files[n].version in seen
    ensures !Distinct(files)
  {
    var g :| g in out && g.version == files[n].version;
    var i :| 0 <= i < n && files[i] == g;
  }

  predicate IsLoadProblem(p: Problem) { p.NoMigrations? || p.BadName? || p.BadVersion? || p.SharedVersion? }

  /** How a transaction that applies a migration ends: an error at commit may hide that it did. */
  datatype Outcome = Done | RolledBack | Unheard

  /** A database that has had migrations applied, in an order. */
  class Database {
    var applied: map<int, string>  // schema_migrations: the checksums, by version
    ghost var history: seq<int>    // the versions, as they were applied

    ghost predicate Valid()
      reads this
    {
      && (forall v :: v in applied <==> v in history)
      && forall i, j | 0 <= i < j < |history| :: history[i] < history[j]
    }

    constructor ()
      ensures Valid() && applied == map[] && history == []
    {
      applied, history := map[], [];
    }

    /** One transaction: the migration takes effect with its record, or neither does. */
    method Apply(f: File, outcome: Outcome) returns (ok: bool)
      requires Valid() && f.Numbered? && forall v | v in applied :: v < f.version
      modifies this
      ensures Valid() && ok == outcome.Done?
      ensures applied == if outcome.RolledBack? then old(applied) else old(applied)[f.version := f.checksum]
      ensures history == if outcome.RolledBack? then old(history) else old(history) + [f.version]
    {
      ok := outcome.Done?;
      assert forall i | 0 <= i < |history| :: history[i] in history;
      if !outcome.RolledBack? {
        applied, history := applied[f.version := f.checksum], history + [f.version];
      }
    }

    /** Applies what is missing, least version first, until one fails, and returns what it applied.
        A directory it refuses changes nothing. */
    method Migrate(entries: seq<Entry>, outcomes: map<int, Outcome>) returns (ran: seq<File>, problem: Option<Problem>)
      requires Valid()
      modifies this
      ensures Valid() && Extends(old(applied), applied)
      ensures Refuses(old(applied), Files(entries)) <==> problem.Some? && !problem.value.Failed?
      ensures Refuses(old(applied), Files(entries)) ==> ran == [] && applied == old(applied) && history == old(history)
      ensures problem.None? ==> history == old(history) + Versions(ran) && forall f | f in Files(entries) :: Records(applied, f)
      ensures problem.Some? && problem.value.Failed? ==>
                history == old(history) + Versions(ran) || history == old(history) + Versions(ran) + [problem.value.version]
    {
      var loaded := Load(entries);
      if loaded.Err? {
        return [], Some(loaded.error);
      }
      var migrations := loaded.value;
      var applied := this.applied;
      ran := [];
      for n := 0 to |migrations|
        invariant Valid() && history == old(history) + Versions(ran)
        invariant Progress(applied, this.applied, migrations, n)
        invariant ran == [] ==> this.applied == applied
        invariant ran != [] ==> Beyond(applied, migrations, n)
      {
        var f := migrations[n];
        if f.version in applied {
          if applied[f.version] != f.checksum {
            assert Contradicts(applied, f);
            return [], Some(Changed(f.version));
          }
          continue;
        }
        if exists v | v in applied :: v > f.version {
          assert Contradicts(applied, f);
          return [], Some(Backdated(f.version));
        }
        BeyondThen(applied, migrations, n);
        ProgressThen(applied, this.applied, migrations, n);
        var ok := Apply(f, if f.version in outcomes then outcomes[f.version] else Done);
        if !ok {
          return ran, Some(Failed(f.version));
        }
        VersionsThen(ran, f);
        Reassociated(old(history), Versions(ran), [f.version]);
        ran := ran + [f];
      }
      problem := None;
    }
  }

  /** The first n are applied, and nothing else that was not. */
  ghost predicate Progress(before: map<int, string>, now: map<int, string>, migrations: seq<File>, n: nat) {
    && n <= |migrations| && Extends(before, now)
    && (forall i | 0 <= i < n :: Records(now, migrations[i]) && !Contradicts(before, migrations[i]))
    && (forall v | v in now :: v in before || exists i | 0 <= i < n :: migrations[i].Numbered? && migrations[i].version == v)
  }

  lemma {:induction false} ProgressThen(before: map<int, string>, now: map<int, string>, migrations: seq<File>, n: nat)
    requires Sorted(migrations) && n < |migrations| && Progress(before, now, migrations, n)
    requires migrations[n].version !in before && !Contradicts(before, migrations[n])
    ensures forall v | v in now :: v < migrations[n].version
    ensures Progress(before, now[migrations[n].version := migrations[n].checksum], migrations, n + 1)
  {
    var f := migrations[n];
    var more := now[f.version := f.checksum];
    forall i | 0 <= i < n
      ensures Records(more, migrations[i])
    {
      assert migrations[i].version < f.version;
    }
    assert Records(more, f);
  }

  /** From the n-th on, all are newer than anything applied. */
  ghost predicate Beyond(applied: map<int, string>, migrations: seq<File>, n: nat) {
    forall i, v | n <= i < |migrations| && v in applied && migrations[i].Numbered? :: v < migrations[i].version
  }

  /** Once one migration is to be applied, none after it contradicts what was. */
  lemma {:induction false} BeyondThen(applied: map<int, string>, migrations: seq<File>, n: nat)
    requires Sorted(migrations) && n < |migrations|
    requires migrations[n].version !in applied && !Contradicts(applied, migrations[n])
    ensures Beyond(applied, migrations, n)
    ensures forall i | n <= i < |migrations| :: !Contradicts(applied, migrations[i])
  {
    forall i, v | n <= i < |migrations| && v in applied
      ensures v < migrations[i].version
    {
      assert v < migrations[n].version <= migrations[i].version;
    }
  }

  ghost predicate Extends(before: map<int, string>, after: map<int, string>) {
    forall v | v in before :: v in after && after[v] == before[v]
  }

  predicate Records(applied: map<int, string>, f: File) {
    f.Numbered? && f.version in applied && applied[f.version] == f.checksum
  }

  /** The directory cannot be loaded, or contradicts what has been applied: it changes a migration
      or inserts one before the last. */
  predicate Refuses(applied: map<int, string>, files: seq<File>) {
    !Loadable(files) || exists f | f in files :: Contradicts(applied, f)
  }

  predicate Contradicts(applied: map<int, string>, f: File) {
    f.Numbered? && if f.version in applied then applied[f.version] != f.checksum else exists v | v in applied :: v > f.version
  }

  function Versions(files: seq<File>): (versions: seq<int>)
    ensures |versions| == |files|
  {
    if files == [] then []
    else
      var f := files[|files| - 1];
      Versions(files[..|files| - 1]) + [if f.Numbered? then f.version else 0]
  }

  lemma {:induction false} VersionsThen(files: seq<File>, f: File)
    requires f.Numbered?
    ensures Versions(files + [f]) == Versions(files) + [f.version]
  {
    assert (files + [f])[..|files|] == files;
  }

  lemma {:induction false} Reassociated<T>(a: seq<T>, b: seq<T>, c: seq<T>)
    ensures a + b + c == a + (b + c)
  {}
}
