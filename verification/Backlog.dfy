/** The withhold table of the fold loop: which judgement sets must not be sent again yet. */
module Backlog {
  /** The spawn values the gateway put on this process. */
  datatype Identity = Identity(pool: string, ctx: int, reply: int, boot: string)

  datatype Reason =
    | NoContext | CutOff
    | Loop | Unparseable | Unrecognised
    | ConnectionLost | WriteFailed
    | Other(name: string)

  datatype Row = Row(reason: Reason, ctx: int, reply: int, pool: string, boot: string)

  /** Keyed by the judgement set; the stored key is its sha256, taken as injective. */
  type Table = map<set<int>, Row>

  /** eligible: the row may be tried again under this identity. */
  function Eligible(row: Row, ident: Identity): bool {
    match row.reason
    case NoContext => ident.ctx > row.ctx
    case CutOff => ident.reply > row.reply
    case Loop => ident.pool != row.pool
    case Unparseable => ident.pool != row.pool
    case Unrecognised => ident.pool != row.pool
    case ConnectionLost => ident.boot != row.boot
    case WriteFailed => ident.boot != row.boot
    case Other(_) => false
  }

  function RowOf(reason: Reason, ident: Identity): Row {
    Row(reason, ident.ctx, ident.reply, ident.pool, ident.boot)
  }

  /** blocked_keys. */
  function Blocked(table: Table, ident: Identity): set<set<int>> {
    set key | key in table && !Eligible(table[key], ident)
  }

  function Upsert(table: Table, key: set<int>, reason: Reason, ident: Identity): Table {
    table[key := RowOf(reason, ident)]
  }

  function Delete(table: Table, key: set<int>): Table {
    table - {key}
  }

  /** A row stored under an identity blocks its key for as long as that identity stands; other keys are as before. */
  lemma StoredRowBlocks(table: Table, key: set<int>, reason: Reason, ident: Identity)
    ensures Blocked(Upsert(table, key, reason, ident), ident) == Blocked(table, ident) + {key}
    ensures Blocked(Delete(table, key), ident) == Blocked(table, ident) - {key}
  {
  }

  // ---------- a set that keeps failing the same way ----------

  /**
   The row of a set after processes of these identities, one after the other, each of which sends the set
   once if it may and fails for the same reason.
   */
  function RowAfter(first: Row, idents: seq<Identity>): Row {
    if idents == [] then first
    else
      var before, ident := RowAfter(first, idents[..|idents| - 1]), idents[|idents| - 1];
      if Eligible(before, ident) then RowOf(before.reason, ident) else before
  }

  /** Process k sends the set. */
  predicate SentBy(first: Row, idents: seq<Identity>, k: nat)
    requires k < |idents|
  {
    Eligible(RowAfter(first, idents[..k]), idents[k])
  }

  function Before(stored: Identity, idents: seq<Identity>, k: nat): Identity
    requires k <= |idents|
  {
    if k == 0 then stored else idents[k - 1]
  }

  lemma {:induction false} ReasonStays(first: Row, idents: seq<Identity>)
    ensures RowAfter(first, idents).reason == first.reason
  {
    if idents != [] { ReasonStays(first, idents[..|idents| - 1]); }
  }

  /** A pool row always carries the pool of the last process, a boot row its boot. */
  lemma {:induction false} CarriesTheLast(reason: Reason, stored: Identity, idents: seq<Identity>)
    ensures var row, last := RowAfter(RowOf(reason, stored), idents), Before(stored, idents, |idents|);
            && (reason in {Loop, Unparseable, Unrecognised} ==> row.pool == last.pool)
            && (reason in {ConnectionLost, WriteFailed} ==> row.boot == last.boot)
  {
    if idents != [] {
      var front := idents[..|idents| - 1];
      CarriesTheLast(reason, stored, front);
      ReasonStays(RowOf(reason, stored), front);
    }
  }

  /** A size row carries the largest size so far. */
  lemma {:induction false} CarriesTheLargest(reason: Reason, stored: Identity, idents: seq<Identity>)
    ensures var row := RowAfter(RowOf(reason, stored), idents);
            && (reason == NoContext ==>
                  stored.ctx <= row.ctx
                  && (row.ctx == stored.ctx || exists i :: 0 <= i < |idents| && row.ctx == idents[i].ctx)
                  && forall i :: 0 <= i < |idents| ==> idents[i].ctx <= row.ctx)
            && (reason == CutOff ==>
                  stored.reply <= row.reply
                  && (row.reply == stored.reply || exists i :: 0 <= i < |idents| && row.reply == idents[i].reply)
                  && forall i :: 0 <= i < |idents| ==> idents[i].reply <= row.reply)
  {
    if idents != [] {
      var front := idents[..|idents| - 1];
      CarriesTheLargest(reason, stored, front);
      ReasonStays(RowOf(reason, stored), front);
      assert forall i :: 0 <= i < |front| ==> front[i] == idents[i];
    }
  }

  /**
   Over any sequence of respawns a set that keeps failing for a size is sent only at a size never seen before, so
   a return to an earlier one sends nothing; one that fails for its pool or boot is sent at every change of it, a
   return included; any other reason is never sent again.
   */
  lemma SentExactly(reason: Reason, stored: Identity, idents: seq<Identity>, k: nat)
    requires k < |idents|
    ensures SentBy(RowOf(reason, stored), idents, k) <==>
              match reason
              case NoContext => stored.ctx < idents[k].ctx && forall i :: 0 <= i < k ==> idents[i].ctx < idents[k].ctx
              case CutOff => stored.reply < idents[k].reply && forall i :: 0 <= i < k ==>
                idents[i].reply < idents[k].reply
              case Loop | Unparseable | Unrecognised => idents[k].pool != Before(stored, idents, k).pool
              case ConnectionLost | WriteFailed => idents[k].boot != Before(stored, idents, k).boot
              case Other(_) => false
  {
    var earlier := idents[..k];
    ReasonStays(RowOf(reason, stored), earlier);
    CarriesTheLast(reason, stored, earlier);
    CarriesTheLargest(reason, stored, earlier);
    assert Before(stored, earlier, |earlier|) == Before(stored, idents, k);
    assert forall i :: 0 <= i < k ==> earlier[i] == idents[i];
  }
}
