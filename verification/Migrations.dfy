/** The forward-only migration runner and its ledger. */
module Migrations {
  import opened Tables

  /** A migration file, by the number its name sorts by. */
  type Files = seq<int>

  datatype Exit = NoFiles | Ahead | Adopted | NeedsAdoption | UpToDate | Done | Failed

  /** pending: by position, not by membership. */
  function Pending(files: Files, latest: Option<int>): Files {
    if files == [] then []
    else
      var last := files[|files| - 1];
      Pending(files[..|files| - 1], latest) + if latest.None? || last > latest.value then [last] else []
  }

  /** ahead: what the database has and this checkout has not. */
  function AheadOf(files: Files, applied: set<int>): set<int> {
    applied - Elems(files)
  }

  /** needs_adoption. */
  predicate NeedsAdopting(frameworkPresent: bool, applied: set<int>) {
    frameworkPresent && applied == {}
  }

  /** SELECT max(filename). */
  ghost predicate IsLatest(applied: set<int>, latest: Option<int>) {
    match latest
    case None => applied == {}
    case Some(m) => m in applied && forall x :: x in applied ==> x <= m
  }

  lemma {:induction false} PendingIsTheRest(files: Files, n: nat, latest: Option<int>)
    requires Ascending(files) && n <= |files|
    requires latest == if n == 0 then None else Some(files[n - 1])
    ensures Pending(files, latest) == files[n..]
  {
    if files == [] {
    } else if n == |files| {
      AllBelow(files, files[n - 1], |files|);
    } else {
      PendingIsTheRest(files[..|files| - 1], n, latest);
      assert files[n..] == files[..|files| - 1][n..] + [files[|files| - 1]];
    }
  }

  lemma {:induction false} AllBelow(files: Files, m: int, k: nat)
    requires k <= |files| && forall i :: 0 <= i < k ==> files[i] <= m
    ensures Pending(files[..k], Some(m)) == []
    ensures k == |files| ==> Pending(files, Some(m)) == []
  {
    if k > 0 {
      AllBelow(files, m, k - 1);
      assert files[..k][..k - 1] == files[..k - 1];
    }
    if k == |files| { assert files[..k] == files; }
  }

  /** The greatest of an ascending list is its last. */
  lemma LatestOfPrefix(done: seq<int>, latest: Option<int>)
    requires Ascending(done) && IsLatest(Elems(done), latest)
    ensures latest == if done == [] then None else Some(done[|done| - 1])
  {
    if done != [] {
      assert done[|done| - 1] in Elems(done);
      assert done[|done| - 1] in done;
      if latest.Some? {
        var i :| 0 <= i < |done| && done[i] == latest.value;
      }
    }
  }

  // ---------- one invocation, and a history of them ----------

  /** Where applying stops: the first file from n on that fails, or the end. */
  function StopAt(files: Files, n: nat, fails: set<int>): (r: nat)
    requires n <= |files|
    ensures n <= r <= |files| && (r < |files| ==> files[r] in fails)
    ensures forall k :: n <= k < r ==> files[k] !in fails
    decreases |files| - n
  {
    if n == |files| || files[n] in fails then n else StopAt(files, n + 1, fails)
  }

  /** What a checkout, its flags and the failures of the moment make of a database at `done`. */
  function Outcome(done: seq<int>, files: Files, adopt: bool, frameworkPresent: bool, fails: set<int>): (seq<int>, Exit)
    requires done <= files || AheadOf(files, Elems(done)) != {}
  {
    if files == [] then (done, NoFiles)
    else if AheadOf(files, Elems(done)) != {} then (done, Ahead)
    else if adopt then (files, Adopted)
    else if NeedsAdopting(frameworkPresent, Elems(done)) then (done, NeedsAdoption)
    else if done == files then (done, UpToDate)
    else
      var stop := StopAt(files, |done|, fails);
      (files[..stop], if stop == |files| then Done else Failed)
  }

  /** One use of the tool: the mainline of migrations so far, the part of it in this checkout, and the rest. */
  datatype Use = Use(mainline: Files, files: Files, adopt: bool, frameworkPresent: bool, fails: set<int>)

  /** The mainline only gains higher numbers; a checkout holds it up to some point. */
  ghost predicate History(uses: seq<Use>) {
    (forall i :: 0 <= i < |uses| ==> Ascending(uses[i].mainline) && uses[i].files <= uses[i].mainline)
    && forall i, j :: 0 <= i <= j < |uses| ==> uses[i].mainline <= uses[j].mainline
  }

  lemma PrefixOrAhead(done: seq<int>, files: Files, mainline: Files)
    requires Ascending(mainline) && done <= mainline && files <= mainline
    ensures done <= files || AheadOf(files, Elems(done)) != {}
  {
    if !(done <= files) {
      var n := |files|;
      assert n < |done|;
      assert done[n] == mainline[n] && done[n] in done;
      assert done[n] !in files;
      assert done[n] in AheadOf(files, Elems(done));
    }
  }

  ghost function OutcomeOf(done: seq<int>, use: Use): (r: (seq<int>, Exit))
    requires Ascending(use.mainline) && use.files <= use.mainline && done <= use.mainline
    ensures done <= r.0 <= use.mainline
  {
    PrefixOrAhead(done, use.files, use.mainline);
    OutcomeMoves(done, use.files, use.adopt, use.frameworkPresent, use.fails);
    Outcome(done, use.files, use.adopt, use.frameworkPresent, use.fails)
  }

  lemma OutcomeMoves(done: seq<int>, files: Files, adopt: bool, frameworkPresent: bool, fails: set<int>)
    requires done <= files || AheadOf(files, Elems(done)) != {}
    ensures var (out, exit) := Outcome(done, files, adopt, frameworkPresent, fails);
            done <= out && (out == done || out <= files)
  {
    forall x | x in done ensures x in Elems(done) {}
    if !(done <= files) {
    } else if AheadOf(files, Elems(done)) != {} {
      NotAheadOfOwn(done, files);
    }
  }

  lemma NotAheadOfOwn(done: seq<int>, files: Files)
    requires done <= files
    ensures AheadOf(files, Elems(done)) == {}
  {
    forall x | x in done ensures x in files {
      var i :| 0 <= i < |done| && done[i] == x;
      assert files[i] == x;
    }
  }

  /** The database after each use of a history, from a new ledger on. */
  ghost function Ledgers(uses: seq<Use>): (r: seq<int>)
    requires History(uses)
    ensures uses != [] ==> r <= uses[|uses| - 1].mainline
    ensures uses == [] ==> r == []
    decreases |uses|
  {
    if uses == [] then []
    else
      var front := uses[..|uses| - 1];
      var use := uses[|uses| - 1];
      var before := Ledgers(front);
      assert before <= use.mainline by { if front != [] { assert uses[|front| - 1].mainline <= use.mainline; } }
      OutcomeOf(before, use).0
  }

  /**
   Over any history the ledger only grows, and always is the mainline up to some point: every migration once, in order,
   none skipped.
   */
  lemma {:induction false} LedgerStaysDownwardClosed(uses: seq<Use>, k: nat)
    requires History(uses) && 0 < k <= |uses|
    ensures Ledgers(uses[..k]) <= Ledgers(uses) <= uses[|uses| - 1].mainline
    ensures Ascending(Ledgers(uses))
    decreases |uses|
  {
    var front := uses[..|uses| - 1];
    if k < |uses| {
      LedgerStaysDownwardClosed(front, k);
      assert front[..k] == uses[..k];
    } else {
      assert uses[..k] == uses;
    }
    assert Ascending(uses[|uses| - 1].mainline);
  }

  /** "Up to date" is said only of a ledger that is exactly the checkout; a database ahead of it is left alone. */
  lemma ExitMeans(done: seq<int>, use: Use)
    requires Ascending(use.mainline) && use.files <= use.mainline && done <= use.mainline
    ensures var (out, exit) := OutcomeOf(done, use);
            && (exit == UpToDate ==> Elems(out) == Elems(use.files))
            && (exit in {Done, Adopted} ==> out == use.files)
            && (exit == Ahead <==> use.files != [] && use.files < done)
            && (exit in {NoFiles, Ahead, NeedsAdoption, UpToDate} ==> out == done)
            && (exit == Failed ==> |out| < |use.files| && use.files[|out|] in use.fails)
            && (!use.adopt ==> forall i :: |done| <= i < |out| ==> out[i] !in use.fails)
  {
    PrefixOrAhead(done, use.files, use.mainline);
    if done <= use.files { NotAheadOfOwn(done, use.files); }
  }

  /** The framework's tables are there, and no migration is recorded: another tool made this database. */
  predicate Foreign(done: seq<int>, use: Use) {
    use.frameworkPresent && done == []
  }

  /**
   Which exit it is, over the checkout and the ledger alone. In particular a database that another tool made is never
   migrated before it is adopted, and an adoption runs nothing.
   */
  lemma ExitExactly(done: seq<int>, use: Use)
    requires Ascending(use.mainline) && use.files <= use.mainline && done <= use.mainline
    ensures var (out, exit) := OutcomeOf(done, use);
            if use.files == [] then exit == NoFiles && out == done
            else if !(done <= use.files) then exit == Ahead && out == done
            else if use.adopt then exit == Adopted && out == use.files
            else if Foreign(done, use) then exit == NeedsAdoption && out == done
            else if done == use.files then exit == UpToDate && out == done
            else if forall x :: x in use.files[|done|..] ==> x !in use.fails then exit == Done && out == use.files
            else exit == Failed && done <= out && out < use.files && use.files[|out|] in use.fails
                 && forall x :: x in out[|done|..] ==> x !in use.fails
  {
    PrefixOrAhead(done, use.files, use.mainline);
    if done <= use.files {
      NotAheadOfOwn(done, use.files);
      StopsAtFirstFailure(use.files, |done|, use.fails);
      assert use.files[..|done|] == done;
      assert done != [] ==> done[0] in Elems(done);
    }
  }

  lemma StopsAtFirstFailure(files: Files, n: nat, fails: set<int>)
    requires n <= |files|
    ensures var stop := StopAt(files, n, fails);
            && (stop == |files| <==> forall x :: x in files[n..] ==> x !in fails)
            && files[..n] <= files[..stop] && forall x :: x in files[..stop][n..] ==> x !in fails
  {
    var stop := StopAt(files, n, fails);
    forall x | x in files[..stop][n..] ensures x !in fails {
      var k :| 0 <= k < |files[..stop][n..]| && files[..stop][n..][k] == x;
      assert files[n + k] == x;
    }
    if stop < |files| {
      assert files[n..][stop - n] == files[stop];
    } else {
      assert files[..stop][n..] == files[n..];
    }
  }

  class Runner {
    var ledger: set<int>
    ghost var done: seq<int>

    /** The ledger is what was done, each once, in increasing order. */
    ghost predicate Valid()
      reads this
    {
      ledger == Elems(done) && Ascending(done)
    }

    constructor ()
      ensures Valid() && ledger == {} && done == []
    {
      ledger, done := {}, [];
    }

    method LatestApplied() returns (latest: Option<int>)
      ensures IsLatest(ledger, latest)
    {
      latest := None;
      var todo := ledger;
      ghost var seen: set<int> := {};
      while todo != {}
        invariant seen + todo == ledger && IsLatest(seen, latest)
        decreases |todo|
      {
        ghost var any := Pick(todo);
        var x :| x in todo;
        if latest.None? || x > latest.value { latest := Some(x); }
        seen, todo := seen + {x}, todo - {x};
      }
    }

    /** apply: the migration and its ledger row in one transaction. */
    method Apply(file: int, fails: bool)
      requires Valid() && forall x :: x in done ==> x < file
      modifies this
      ensures Valid() && done == if fails then old(done) else old(done) + [file]
    {
      if fails { return; }
      ledger := ledger + {file};
      ghost var before := done;
      done := done + [file];
      assert Elems(done) == Elems(before) + {file};
      assert forall k :: 0 <= k < |before| ==> before[k] in before;
    }

    /** main without names or --status. `fails` are the migrations that raise when run now. */
    method Run(files: Files, adopt: bool, frameworkPresent: bool, fails: set<int>) returns (exit: Exit)
      requires Valid() && Ascending(files)
      requires done <= files || AheadOf(files, ledger) != {}
      modifies this
      ensures Valid()
      ensures (done, exit) == Outcome(old(done), files, adopt, frameworkPresent, fails)
    {
      if files == [] { return NoFiles; }
      var latest := LatestApplied();
      var unknown := AheadOf(files, ledger);
      if unknown != {} { return Ahead; }
      if adopt {
        AdoptAll(files);
        return Adopted;
      }
      if NeedsAdopting(frameworkPresent, ledger) {
        return NeedsAdoption;
      }
      LatestOfPrefix(done, latest);
      PendingIsTheRest(files, |done|, latest);
      var targets := Pending(files, latest);
      if targets == [] {
        assert done == files;
        return UpToDate;
      }
      exit := ApplyAll(files, targets, fails);
    }

    method AdoptAll(files: Files)
      requires Valid() && Ascending(files) && done <= files
      modifies this
      ensures Valid() && done == files
    {
      ghost var n := |done|;
      for i := 0 to |files|
        invariant Valid() && done == files[..if i < n then n else i]
      {
        var file := files[i];
        InPrefix(files, i, if i < n then n else i);
        if file !in ledger {
          BelowInPrefix(files, i);
          Apply(file, false);
          assert files[..i + 1] == files[..i] + [file];
        }
      }
      assert files[..|files|] == files;
    }

    method ApplyAll(files: Files, targets: Files, fails: set<int>) returns (exit: Exit)
      requires Valid() && Ascending(files) && files == done + targets
      modifies this
      ensures Valid()
      ensures var stop := StopAt(files, |old(done)|, fails);
              done == files[..stop] && exit == if stop == |files| then Done else Failed
    {
      ghost var n := |done|;
      for i := 0 to |targets|
        invariant Valid() && done == files[..n + i]
        invariant StopAt(files, n, fails) == StopAt(files, n + i, fails)
      {
        NextTarget(files, n, targets, i);
        BelowInPrefix(files, n + i);
        if targets[i] in fails {
          Apply(targets[i], true);
          return Failed;
        }
        Apply(targets[i], false);
      }
      assert files[..|files|] == files;
      exit := Done;
    }
  }

  lemma NextTarget(files: Files, n: nat, targets: Files, i: nat)
    requires Ascending(files) && n <= |files| && targets == files[n..] && i < |targets|
    ensures targets[i] == files[n + i] && files[..n + i + 1] == files[..n + i] + [targets[i]]
  {
  }

  lemma InPrefix(files: Files, i: nat, n: nat)
    requires Ascending(files) && i < |files| && n <= |files|
    ensures files[i] in files[..n] <==> i < n
  {
    if i < n { assert files[..n][i] == files[i]; }
  }

  lemma BelowInPrefix(files: Files, i: nat)
    requires Ascending(files) && i < |files|
    ensures forall x :: x in files[..i] ==> x < files[i]
  {
  }
}
