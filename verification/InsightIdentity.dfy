/** When a walked component is an insight that already exists. */
module InsightIdentity {
  import opened Tables

  datatype Relation = Same | Supersedes | Covers | Overlap | Apart

  /** classify_identity; Covers is the source's 'covered': the existing insight is strictly larger. */
  function ClassifyIdentity(found: set<int>, existing: set<int>): Relation {
    if found == existing then Same
    else if existing < found then Supersedes
    else if found < existing then Covers
    else if found * existing != {} then Overlap
    else Apart
  }

  /** An active insight: its id and judgement set. */
  datatype Row = Row(id: int, judgements: set<int>)

  datatype Match = Match(relation: Relation, id: int)

  ghost predicate Smallest(found: set<int>, existing: seq<Row>, relation: Relation, id: int) {
    (exists r :: r in existing && r.id == id && ClassifyIdentity(found, r.judgements) == relation)
    && forall r :: r in existing && ClassifyIdentity(found, r.judgements) == relation ==> id <= r.id
  }

  /** The smallest equal insight, else the smallest strictly larger one, else none. */
  ghost predicate IsMatch(found: set<int>, existing: seq<Row>, m: Option<Match>) {
    match m
    case Some(Match(Same, id)) => Smallest(found, existing, Same, id)
    case Some(Match(Covers, id)) =>
      Smallest(found, existing, Covers, id) && forall r :: r in existing ==> r.judgements != found
    case Some(_) => false
    case None => forall r :: r in existing ==> !(found <= r.judgements)
  }

  /** match_existing_insight. */
  method MatchExistingInsight(found: set<int>, existing: seq<Row>) returns (best: Option<Match>)
    ensures IsMatch(found, existing, best)
  {
    var same, covers: Option<int> := None, None;
    for i := 0 to |existing|
      invariant match same
                case Some(id) => Smallest(found, existing[..i], Same, id)
                case None => forall r :: r in existing[..i] ==> r.judgements != found
      invariant match covers
                case Some(id) => Smallest(found, existing[..i], Covers, id)
                case None => forall r :: r in existing[..i] ==> !(found < r.judgements)
    {
      var row := existing[i];
      assert existing[..i + 1] == existing[..i] + [row] && row in existing[..i + 1];
      forall r | r in existing[..i] ensures r in existing[..i + 1] {}
      match ClassifyIdentity(found, row.judgements) {
        case Same => if same.None? || row.id < same.value { same := Some(row.id); }
        case Covers => if covers.None? || row.id < covers.value { covers := Some(row.id); }
        case _ =>
      }
    }
    assert existing[..|existing|] == existing;
    best := if same.Some? then Some(Match(Same, same.value))
            else if covers.Some? then Some(Match(Covers, covers.value))
            else None;
  }

  /** Which insight it is: the smallest of this very set, or else the smallest that holds it and more. */
  lemma MatchIsSmallest(found: set<int>, existing: seq<Row>, m: Option<Match>, r: Row)
    requires IsMatch(found, existing, m) && r in existing
    ensures r.judgements == found ==> m.Some? && m.value.relation == Same && m.value.id <= r.id
    ensures found < r.judgements ==>
              m.Some? && (m.value.relation == Same || (m.value.relation == Covers && m.value.id <= r.id))
    ensures m.Some? ==> exists q :: q in existing && q.id == m.value.id
                                    && if m.value.relation == Same then q.judgements == found
                                       else found < q.judgements
  {
    if m.Some? {
      var q :| q in existing && q.id == m.value.id && ClassifyIdentity(found, q.judgements) == m.value.relation;
    }
  }

  /** Some insight matches exactly when one already holds every judgement found. */
  lemma MatchesIffHeld(found: set<int>, existing: seq<Row>, m: Option<Match>)
    requires IsMatch(found, existing, m)
    ensures m.Some? <==> exists r :: r in existing && found <= r.judgements
  {
    if m.Some? {
      var r :| r in existing && r.id == m.value.id && ClassifyIdentity(found, r.judgements) == m.value.relation;
    }
  }

  /** The match is a function of the set of rows: row order cannot change it. */
  lemma MatchIgnoresOrder(found: set<int>, a: seq<Row>, b: seq<Row>, m: Option<Match>, n: Option<Match>)
    requires forall r :: r in a <==> r in b
    requires IsMatch(found, a, m) && IsMatch(found, b, n)
    ensures m == n
  {
    MatchesIffHeld(found, a, m);
    MatchesIffHeld(found, b, n);
    if m.Some? {
      var r :| r in a && r.id == m.value.id && ClassifyIdentity(found, r.judgements) == m.value.relation;
      var q :| q in b && q.id == n.value.id && ClassifyIdentity(found, q.judgements) == n.value.relation;
    }
  }
}
