/** Minting agent tokens: the registry lines and the files the tokens are written to stay in step. */
module TokenRegistry {
  import opened Tables
  import opened InstallLine

  /**
   `tokens` is AGENT_TOKENS, a token standing for its digest; `installs` is AGENT_INSTALLS, None while there is
   no such line; `files` holds the token in each file, by resolved path; tokens from `next` on are still unused.
   */
  datatype Reg = Reg(
    tokens: map<string, nat>, installs: Option<map<string, Install>>, files: map<string, nat>, next: nat)

  /** os.path.realpath */
  type Resolve = string -> string

  // ---------- the bulk mint ----------

  datatype Acc = Acc(tokens: map<string, nat>, installs: map<string, Install>, files: map<string, nat>, next: nat)

  /** One agent of the roster: remote, written through, or refused with its old entry carried forward. */
  function MintOne(
    acc: Acc, a: string, installs: map<string, Install>, before: map<string, nat>, fails: set<string>, resolve: Resolve)
    : Acc {
    if a !in installs then acc.(tokens := acc.tokens[a := acc.next], next := acc.next + 1)
    else if a in fails then acc.(tokens := if a in before then acc.tokens[a := before[a]] else acc.tokens)
    else Acc(acc.tokens[a := acc.next], acc.installs[a := installs[a]],
      acc.files[resolve(installs[a].path) := acc.next], acc.next + 1)
  }

  function MintAll(
    acc: Acc, roster: seq<string>, installs: map<string, Install>, before: map<string, nat>, fails: set<string>,
    resolve: Resolve) : Acc {
    if roster == [] then acc
    else MintOne(MintAll(acc, roster[..|roster| - 1], installs, before, fails, resolve), roster[|roster| - 1], installs,
      before, fails, resolve)
  }

  /** Guessed paths are used only while there is no registry line. */
  function Known(reg: Reg, guessed: map<string, Install>): map<string, Install> {
    if reg.installs.Some? then reg.installs.value else guessed
  }

  function Mint(
    reg: Reg, roster: seq<string>, guessed: map<string, Install>, fails: set<string>, resolve: Resolve): Reg {
    var acc := MintAll(Acc(map[], map[], reg.files, reg.next), roster, Known(reg, guessed), reg.tokens, fails, resolve);
    Reg(acc.tokens, Some(acc.installs), acc.files, acc.next)
  }

  // ---------- one agent ----------

  /** A request, whether the role it asks for is refused, and what the file system makes of its path. */
  datatype Request = Request(
    name: string, path: Option<string>, kind: InstallKind, replace: bool, roleRefused: bool, isDirectory: bool,
    writeFails: bool)

  function Registered(reg: Reg): map<string, Install> {
    if reg.installs.Some? then reg.installs.value else map[]
  }

  /** Another live agent's file. */
  predicate Clobbers(reg: Reg, r: Request, resolve: Resolve) {
    r.path.Some? && exists n :: n in Registered(reg) && n in reg.tokens && !(r.replace && n == r.name)
                                && resolve(Registered(reg)[n].path) == resolve(r.path.value)
  }

  /**
   A kind needs a path, the role and the fields must be good, --add wants a new name and --remint an old one, and no
   file is taken over.
   */
  predicate Accepted(reg: Reg, r: Request, resolve: Resolve) {
    (r.kind != Skill ==> r.path.Some?) && !r.roleRefused
    && ValidField(r.name)
    && (r.path.Some? ==> ValidField(r.path.value) && r.path.value[|r.path.value| - 1] != '/' && !r.isDirectory)
    && (r.replace <==> r.name in reg.tokens)
    && !Clobbers(reg, r, resolve)
  }

  /** add_agent: nothing changes when the request is refused or the write fails. */
  function AddAgent(reg: Reg, r: Request, resolve: Resolve): Reg {
    if !Accepted(reg, r, resolve) || (r.path.Some? && r.writeFails) then reg
    else
      var named := reg.(tokens := reg.tokens[r.name := reg.next], next := reg.next + 1);
      match r.path
      case None => named
      case Some(path) =>
        named.(files := named.files[resolve(path) := reg.next],
               installs := Some(Registered(reg)[r.name := Install(r.name, r.kind, path)]))
  }

  // ---------- the invariant ----------

  /** Every registered file holds the token its agent is registered with. */
  ghost predicate FilesMatch(
    tokens: map<string, nat>, installs: map<string, Install>, files: map<string, nat>, resolve: Resolve) {
    forall a :: a in installs ==>
      a in tokens && resolve(installs[a].path) in files && files[resolve(installs[a].path)] == tokens[a]
  }

  ghost predicate DistinctFiles(installs: map<string, Install>, resolve: Resolve) {
    forall a, b :: a in installs && b in installs && a != b ==> resolve(installs[a].path) != resolve(installs[b].path)
  }

  ghost predicate DistinctTokens(tokens: map<string, nat>, next: nat) {
    (forall a :: a in tokens ==> tokens[a] < next)
    && forall a, b :: a in tokens && b in tokens && a != b ==> tokens[a] != tokens[b]
  }

  ghost predicate Sound(reg: Reg, resolve: Resolve) {
    FilesMatch(reg.tokens, Registered(reg), reg.files, resolve)
    && DistinctFiles(Registered(reg), resolve)
    && DistinctTokens(reg.tokens, reg.next)
  }

  // ---------- the bulk mint keeps it ----------

  /** Each new entry is an agent already served, with its old token or one minted since. */
  ghost predicate Provenance(tokens: map<string, nat>, done: set<string>, reg: Reg) {
    (forall a :: a in tokens ==>
      a in done && ((a in reg.tokens && tokens[a] == reg.tokens[a]) || reg.next <= tokens[a]))
    && forall a :: a in done && a in reg.tokens ==> a in tokens
  }

  ghost predicate AccOk(acc: Acc, done: set<string>, reg: Reg, installs: map<string, Install>, resolve: Resolve) {
    reg.next <= acc.next
    && FilesMatch(acc.tokens, acc.installs, acc.files, resolve)
    && (forall a :: a in acc.installs ==> a in installs && acc.installs[a] == installs[a])
    && Provenance(acc.tokens, done, reg)
    && DistinctTokens(acc.tokens, acc.next)
  }

  lemma FreshKeeps(tokens: map<string, nat>, next: nat, done: set<string>, a: string, reg: Reg)
    requires Provenance(tokens, done, reg) && DistinctTokens(tokens, next) && reg.next <= next
    ensures Provenance(tokens[a := next], done + {a}, reg) && DistinctTokens(tokens[a := next], next + 1)
  {
  }

  lemma CarriedKeeps(tokens: map<string, nat>, next: nat, done: set<string>, a: string, reg: Reg)
    requires Provenance(tokens, done, reg) && DistinctTokens(tokens, next) && reg.next <= next && a !in done
    requires DistinctTokens(reg.tokens, reg.next)
    ensures var out := if a in reg.tokens then tokens[a := reg.tokens[a]] else tokens;
            Provenance(out, done + {a}, reg) && DistinctTokens(out, next)
  {
  }

  lemma MintOneKeeps(
    acc: Acc, done: set<string>, a: string, reg: Reg, installs: map<string, Install>, fails: set<string>,
    resolve: Resolve)
    requires AccOk(acc, done, reg, installs, resolve) && a !in done
    requires DistinctTokens(reg.tokens, reg.next) && DistinctFiles(installs, resolve)
    ensures AccOk(MintOne(acc, a, installs, reg.tokens, fails, resolve), done + {a}, reg, installs, resolve)
  {
    assert a !in acc.tokens;
    if a !in installs {
      FreshKeeps(acc.tokens, acc.next, done, a, reg);
      NoFileOf(acc.tokens, acc.installs, acc.files, acc.next, a, resolve);
    } else if a in fails {
      CarriedKeeps(acc.tokens, acc.next, done, a, reg);
      if a in reg.tokens { NoFileOf(acc.tokens, acc.installs, acc.files, reg.tokens[a], a, resolve); }
    } else {
      FreshKeeps(acc.tokens, acc.next, done, a, reg);
      FileWritten(acc.tokens, acc.installs, acc.files, acc.next, a, installs[a], resolve);
    }
  }

  /** An agent without a file may get any token. */
  lemma NoFileOf(
    tokens: map<string, nat>, installs: map<string, Install>, files: map<string, nat>, token: nat, a: string,
    resolve: Resolve)
    requires FilesMatch(tokens, installs, files, resolve) && a !in installs
    ensures FilesMatch(tokens[a := token], installs, files, resolve)
  {
  }

  /** A file of its own is written with the token its agent gets. */
  lemma FileWritten(
    tokens: map<string, nat>, installs: map<string, Install>, files: map<string, nat>, token: nat, a: string,
    install: Install, resolve: Resolve)
    requires FilesMatch(tokens, installs, files, resolve)
    requires forall b :: b in installs && b != a ==> resolve(installs[b].path) != resolve(install.path)
    ensures FilesMatch(tokens[a := token], installs[a := install], files[resolve(install.path) := token], resolve)
  {
  }

  lemma {:induction false} MintAllKeeps(
    acc: Acc, roster: seq<string>, reg: Reg, installs: map<string, Install>, fails: set<string>, resolve: Resolve)
    requires AccOk(acc, {}, reg, installs, resolve) && NoDup(roster)
    requires DistinctTokens(reg.tokens, reg.next) && DistinctFiles(installs, resolve)
    ensures AccOk(MintAll(acc, roster, installs, reg.tokens, fails, resolve), Elems(roster), reg, installs, resolve)
  {
    if roster != [] {
      var front, last := roster[..|roster| - 1], roster[|roster| - 1];
      assert roster == front + [last] && last !in front;
      assert Elems(roster) == Elems(front) + {last};
      MintAllKeeps(acc, front, reg, installs, fails, resolve);
      MintOneKeeps(MintAll(acc, front, installs, reg.tokens, fails, resolve), Elems(front), last, reg, installs, fails,
        resolve);
    }
  }

  /** The roster names every registered agent. */
  predicate CoversRegistry(roster: seq<string>, reg: Reg) {
    NoDup(roster) && forall a :: a in reg.tokens ==> a in roster
  }

  lemma MintKeepsSound(
    reg: Reg, roster: seq<string>, guessed: map<string, Install>, fails: set<string>, resolve: Resolve)
    requires Sound(reg, resolve) && CoversRegistry(roster, reg) && DistinctFiles(guessed, resolve)
    ensures Sound(Mint(reg, roster, guessed, fails, resolve), resolve)
    ensures reg.tokens.Keys <= Mint(reg, roster, guessed, fails, resolve).tokens.Keys
  {
    MintAllKeeps(Acc(map[], map[], reg.files, reg.next), roster, reg, Known(reg, guessed), fails, resolve);
  }

  /** What the bulk mint did for one agent of the roster. */
  ghost predicate Served(
    acc: Acc, a: string, before: map<string, nat>, first: nat, installs: map<string, Install>, fails: set<string>) {
    if a in installs && a in fails then
      a !in acc.installs && (a in acc.tokens <==> a in before) && (a in before ==> acc.tokens[a] == before[a])
    else
      a in acc.tokens && first <= acc.tokens[a]
      && (a in acc.installs <==> a in installs) && (a in installs ==> acc.installs[a] == installs[a])
  }

  lemma {:induction false} MintAllServes(
    acc: Acc, roster: seq<string>, before: map<string, nat>, first: nat, installs: map<string, Install>,
    fails: set<string>, resolve: Resolve)
    requires acc.tokens == map[] && acc.installs == map[] && first <= acc.next && NoDup(roster)
    ensures var out := MintAll(acc, roster, installs, before, fails, resolve);
            && first <= out.next
            && (forall a :: a in roster ==> Served(out, a, before, first, installs, fails))
            && forall a :: a !in roster ==> a !in out.tokens && a !in out.installs
  {
    if roster != [] {
      var front, last := roster[..|roster| - 1], roster[|roster| - 1];
      assert roster == front + [last] && last !in front;
      MintAllServes(acc, front, before, first, installs, fails, resolve);
      var out := MintAll(acc, front, installs, before, fails, resolve);
      forall a | a in front
        ensures Served(MintOne(out, last, installs, before, fails, resolve), a, before, first, installs, fails)
      {
        ServedStays(out, last, before, first, installs, fails, resolve, a);
      }
      ServesThisOne(out, last, before, first, installs, fails, resolve);
    }
  }

  lemma ServedStays(
    acc: Acc, last: string, before: map<string, nat>, first: nat, installs: map<string, Install>, fails: set<string>,
    resolve: Resolve, a: string)
    requires Served(acc, a, before, first, installs, fails) && a != last
    ensures Served(MintOne(acc, last, installs, before, fails, resolve), a, before, first, installs, fails)
  {
  }

  lemma ServesThisOne(
    acc: Acc, last: string, before: map<string, nat>, first: nat, installs: map<string, Install>, fails: set<string>,
    resolve: Resolve)
    requires first <= acc.next && last !in acc.tokens && last !in acc.installs
    ensures var out := MintOne(acc, last, installs, before, fails, resolve);
            && first <= out.next && Served(out, last, before, first, installs, fails)
            && out.tokens.Keys <= acc.tokens.Keys + {last} && out.installs.Keys <= acc.installs.Keys + {last}
  {
  }

  /**
   Every agent of the roster gets a token never used before, and its file and registered path are those known; an agent
   whose file cannot be written keeps the token it had, if it had one, and is no longer registered with a path. Nobody
   else is left in either line.
   */
  lemma MintServesEach(
    reg: Reg, roster: seq<string>, guessed: map<string, Install>, fails: set<string>, resolve: Resolve, a: string)
    requires Sound(reg, resolve) && CoversRegistry(roster, reg) && DistinctFiles(guessed, resolve)
    ensures var known := if reg.installs.Some? then reg.installs.value else guessed;
            var out := Mint(reg, roster, guessed, fails, resolve);
            && out.installs.Some?
            && if a !in roster then a !in out.tokens && a !in out.installs.value
               else if a in known && a in fails then
                 a !in out.installs.value && (a in out.tokens <==> a in reg.tokens)
                 && (a in reg.tokens ==> out.tokens[a] == reg.tokens[a])
               else
                 a in out.tokens && reg.next <= out.tokens[a] && (a in out.installs.value <==> a in known)
                 && (a in known ==>
                       out.installs.value[a] == known[a] && resolve(known[a].path) in out.files
                       && out.files[resolve(known[a].path)] == out.tokens[a])
  {
    MintKeepsSound(reg, roster, guessed, fails, resolve);
    MintAllServes(Acc(map[], map[], reg.files, reg.next), roster, reg.tokens, reg.next, Known(reg, guessed), fails,
      resolve);
    if a in roster {
      assert Served(MintAll(Acc(map[], map[], reg.files, reg.next), roster, Known(reg, guessed), reg.tokens, fails,
        resolve), a, reg.tokens, reg.next, Known(reg, guessed), fails);
    }
  }

  // ---------- adding one agent keeps it ----------

  /** A refused request leaves no trace; an accepted one changes no other agent's entry, path or file. */
  lemma AddTouchesOneAgent(reg: Reg, r: Request, resolve: Resolve)
    requires Sound(reg, resolve)
    ensures var out := AddAgent(reg, r, resolve);
            && reg.tokens.Keys <= out.tokens.Keys
            && (forall a :: a in reg.tokens && a != r.name ==> out.tokens[a] == reg.tokens[a])
            && (forall a :: a in Registered(reg) && a != r.name ==>
                  a in Registered(out) && Registered(out)[a] == Registered(reg)[a]
                  && resolve(Registered(reg)[a].path) in out.files
                  && out.files[resolve(Registered(reg)[a].path)] == reg.files[resolve(Registered(reg)[a].path)])
            && (!Accepted(reg, r, resolve) ==> out == reg)
  {
  }

  /** The request names a file that is another live agent's, or this one's when it is to be new. */
  ghost predicate TakesOver(reg: Reg, r: Request, resolve: Resolve) {
    r.path.Some? && reg.installs.Some?
    && exists n :: n in reg.installs.value && n in reg.tokens && (n != r.name || !r.replace)
                   && resolve(reg.installs.value[n].path) == resolve(r.path.value)
  }

  /** A path that is not one line of plain text, ends like a directory, or is one. */
  predicate BadPath(path: string, isDirectory: bool) {
    !ValidField(path) || path[|path| - 1] == '/' || isDirectory
  }

  /**
   A request changes nothing exactly when it gives a kind without a path, its role is refused, a field is bad, the name
   is taken or missing, it would take a file over, or its file cannot be written; otherwise its agent has a token never
   used before, in its file, and is registered with the kind and path asked for.
   */
  lemma AddExactly(reg: Reg, r: Request, resolve: Resolve)
    requires Sound(reg, resolve)
    ensures var out := AddAgent(reg, r, resolve);
            var refused := (r.kind != Skill && r.path.None?) || r.roleRefused || !ValidField(r.name)
                           || (r.path.Some? && BadPath(r.path.value, r.isDirectory))
                           || r.replace != (r.name in reg.tokens) || TakesOver(reg, r, resolve);
            if refused || (r.path.Some? && r.writeFails) then out == reg
            else
              && r.name in out.tokens && reg.next <= out.tokens[r.name]
              && (r.path.None? ==> out.files == reg.files && out.installs == reg.installs)
              && (r.path.Some? ==>
                    && out.installs.Some? && r.name in out.installs.value
                    && out.installs.value[r.name] == Install(r.name, r.kind, r.path.value)
                    && resolve(r.path.value) in out.files
                    && out.files[resolve(r.path.value)] == out.tokens[r.name])
  {
    assert TakesOver(reg, r, resolve) <==> Clobbers(reg, r, resolve);
  }

  lemma AddKeepsSound(reg: Reg, r: Request, resolve: Resolve)
    requires Sound(reg, resolve) && (r.replace ==> r.path.Some?)
    ensures Sound(AddAgent(reg, r, resolve), resolve)
  {
    FreshToken(reg.tokens, reg.next, r.name);
    if Accepted(reg, r, resolve) && r.path.Some? && !r.writeFails {
      OwnFile(reg, r, resolve);
      PlaceFile(reg, r, resolve);
    }
  }

  lemma FreshToken(tokens: map<string, nat>, next: nat, a: string)
    requires DistinctTokens(tokens, next)
    ensures DistinctTokens(tokens[a := next], next + 1)
  {
  }

  /** No other registered agent has the file of an accepted request. */
  lemma OwnFile(reg: Reg, r: Request, resolve: Resolve)
    requires Sound(reg, resolve) && Accepted(reg, r, resolve) && r.path.Some?
    ensures forall a :: a in Registered(reg) && a != r.name ==>
      resolve(Registered(reg)[a].path) != resolve(r.path.value)
  {
  }

  lemma PlaceFile(reg: Reg, r: Request, resolve: Resolve)
    requires FilesMatch(reg.tokens, Registered(reg), reg.files, resolve) && DistinctFiles(Registered(reg), resolve)
      && r.path.Some?
    requires forall a :: a in Registered(reg) && a != r.name ==>
      resolve(Registered(reg)[a].path) != resolve(r.path.value)
    ensures var installs := Registered(reg)[r.name := Install(r.name, r.kind, r.path.value)];
            && FilesMatch(reg.tokens[r.name := reg.next], installs, reg.files[resolve(r.path.value) := reg.next],
              resolve)
            && DistinctFiles(installs, resolve)
  {
    FileWritten(reg.tokens, Registered(reg), reg.files, reg.next, r.name,
      Install(r.name, r.kind, r.path.value), resolve);
  }

  /** A re-issue without a path keeps files and registry in step exactly when the agent has no registered file. */
  lemma RemintWithoutPath(reg: Reg, r: Request, resolve: Resolve)
    requires Sound(reg, resolve) && Accepted(reg, r, resolve) && r.replace && r.path.None?
    ensures Sound(AddAgent(reg, r, resolve), resolve) <==> r.name !in Registered(reg)
  {
    if r.name in Registered(reg) {
      var path := resolve(Registered(reg)[r.name].path);
      assert reg.files[path] == reg.tokens[r.name] < reg.next;
    }
  }

  // ---------- any sequence of mints ----------

  datatype Op = Bulk(roster: seq<string>, guessed: map<string, Install>, fails: set<string>) | One(request: Request)

  ghost predicate Admissible(reg: Reg, op: Op, resolve: Resolve) {
    match op
    case Bulk(roster, guessed, _) => CoversRegistry(roster, reg) && DistinctFiles(guessed, resolve)
    case One(r) => r.replace ==> r.path.Some?
  }

  function Step(reg: Reg, op: Op, resolve: Resolve): Reg {
    match op
    case Bulk(roster, guessed, fails) => Mint(reg, roster, guessed, fails, resolve)
    case One(r) => AddAgent(reg, r, resolve)
  }

  ghost predicate IsRun(trace: seq<Reg>, ops: seq<Op>, resolve: Resolve) {
    |trace| == |ops| + 1 && trace[0].tokens == map[] && trace[0].installs == None
    && forall k :: 0 <= k < |ops| ==>
      Admissible(trace[k], ops[k], resolve) && trace[k + 1] == Step(trace[k], ops[k], resolve)
  }

  /** Over any run: files match the registry, paths and tokens are distinct, and no entry is ever lost. */
  lemma {:induction false} RunsKeepRegistry(trace: seq<Reg>, ops: seq<Op>, resolve: Resolve, j: nat, k: nat)
    requires IsRun(trace, ops, resolve) && j <= k < |trace|
    ensures Sound(trace[k], resolve)
    ensures trace[j].tokens.Keys <= trace[k].tokens.Keys
    decreases k
  {
    if k > 0 {
      RunsKeepRegistry(trace, ops, resolve, if j < k then j else k - 1, k - 1);
      var reg := trace[k - 1];
      match ops[k - 1] {
        case Bulk(roster, guessed, fails) => MintKeepsSound(reg, roster, guessed, fails, resolve);
        case One(r) =>
          AddKeepsSound(reg, r, resolve);
          AddTouchesOneAgent(reg, r, resolve);
      }
    }
  }

  // ---------- the tool ----------

  class Registry {
    var tokens: map<string, nat>
    var installs: Option<map<string, Install>>
    var files: map<string, nat>
    var next: nat
    const resolve: Resolve

    function View(): Reg
      reads this
    {
      Reg(tokens, installs, files, next)
    }

    constructor (resolve: Resolve)
      ensures View() == Reg(map[], None, map[], 0) && this.resolve == resolve
      ensures Sound(View(), resolve)
    {
      this.tokens, this.installs, this.files, this.next, this.resolve := map[], None, map[], 0, resolve;
    }

    /** _resolve_roster: the default agents, then the other registered names in the order of the line. */
    method ResolveRoster(agents: seq<string>, registered: seq<string>) returns (roster: seq<string>)
      requires NoDup(agents) && forall a :: a in tokens ==> a in registered
      ensures CoversRegistry(roster, View())
      ensures agents <= roster && forall a :: a in roster <==> a in agents || a in registered
    {
      roster := agents;
      for i := 0 to |registered|
        invariant agents <= roster && NoDup(roster)
        invariant forall a :: a in roster <==> a in agents || a in registered[..i]
      {
        assert registered[..i + 1] == registered[..i] + [registered[i]];
        if registered[i] !in roster { roster := roster + [registered[i]]; }
      }
      assert registered[..|registered|] == registered;
    }

    /** One agent of a bulk mint; the new lines are still being put together. */
    method Serve(
      a: string, known: map<string, Install>, fails: set<string>, minted: map<string, nat>, persisted: map<string,
      Install>)
      returns (minted': map<string, nat>, persisted': map<string, Install>)
      modifies this`files, this`next
      ensures Acc(minted', persisted', files, next)
           == MintOne(Acc(minted, persisted, old(files), old(next)), a, known, tokens, fails, resolve)
    {
      minted', persisted' := minted, persisted;
      if a !in known {
        minted', next := minted[a := next], next + 1;
      } else if a in fails {
        if a in tokens { minted' := minted[a := tokens[a]]; }
      } else {
        files := files[resolve(known[a].path) := next];
        minted', persisted', next := minted[a := next], persisted[a := known[a]], next + 1;
      }
    }

    /** mint */
    method MintRoster(roster: seq<string>, guessed: map<string, Install>, fails: set<string>)
      requires Sound(View(), resolve) && CoversRegistry(roster, View()) && DistinctFiles(guessed, resolve)
      modifies this
      ensures View() == Mint(old(View()), roster, guessed, fails, resolve)
      ensures Sound(View(), resolve)
    {
      MintKeepsSound(View(), roster, guessed, fails, resolve);
      var known := if installs.Some? then installs.value else guessed;
      var minted, persisted := ServeAll(roster, known, fails);
      tokens, installs := minted, Some(persisted);
    }

    method ServeAll(roster: seq<string>, known: map<string, Install>, fails: set<string>)
      returns (minted: map<string, nat>, persisted: map<string, Install>)
      modifies this`files, this`next
      ensures Acc(minted, persisted, files, next)
           == MintAll(Acc(map[], map[], old(files), old(next)), roster, known, tokens, fails, resolve)
    {
      ghost var start := Acc(map[], map[], files, next);
      minted, persisted := map[], map[];
      for i := 0 to |roster|
        invariant Acc(minted, persisted, files, next) == MintAll(start, roster[..i], known, tokens, fails, resolve)
      {
        assert roster[..i + 1][..i] == roster[..i];
        minted, persisted := Serve(roster[i], known, fails, minted, persisted);
      }
      assert roster[..|roster|] == roster;
    }

    /** add_agent, for --add and --remint. */
    method Add(r: Request) returns (ok: bool)
      requires Sound(View(), resolve)
      modifies this
      ensures View() == AddAgent(old(View()), r, resolve)
      ensures ok <==> Accepted(old(View()), r, resolve) && !(r.path.Some? && r.writeFails)
      ensures r.replace ==> r.path.Some? ==> Sound(View(), resolve)
    {
      ok := false;
      if r.replace ==> r.path.Some? { AddKeepsSound(View(), r, resolve); }
      if r.kind != Skill && r.path.None? { return; }
      if r.roleRefused || !ValidField(r.name) { return; }
      if r.path.Some? && !(ValidField(r.path.value) && r.path.value[|r.path.value| - 1] != '/' && !r.isDirectory) {
        return; }
      if r.replace != (r.name in tokens) { return; }
      if r.path.Some? {
        var clobbers := FindClobbered(r, r.path.value);
        if clobbers || r.writeFails { return; }
        files := files[resolve(r.path.value) := next];
        var registered := if installs.Some? then installs.value else map[];
        installs := Some(registered[r.name := Install(r.name, r.kind, r.path.value)]);
      }
      tokens, next := tokens[r.name := next], next + 1;
      ok := true;
    }

    /** The registered file of another live agent. */
    method FindClobbered(r: Request, path: string) returns (clobbers: bool)
      requires r.path == Some(path)
      ensures clobbers == Clobbers(View(), r, resolve)
    {
      var registered := if installs.Some? then installs.value else map[];
      var clobbered := set n | n in registered && n in tokens
                               && resolve(registered[n].path) == resolve(path) && !(r.replace && n == r.name);
      clobbers := clobbered != {};
      if clobbers {
        var n := Pick(clobbered);
        assert n in clobbered;
      } else {
        forall n | n in registered && n in tokens && !(r.replace && n == r.name)
          ensures resolve(registered[n].path) != resolve(path)
        {
          assert n !in clobbered;
        }
      }
    }
  }
}
