/** The embedding call against a server that keeps answering that the input is too long. */
module EmbedRetry {
  import opened Tables

  datatype Kind = Mismatch | Overrun | Other

  /** A 400 or 413 with what its body says of the window; or a vector; or any other failure, which raises. */
  datatype Reply<V> =
    | Overflow(kind: Kind, advertised: Option<int>, requested: Option<int>)
    | Vector(vector: V)
    | Raised

  const MAX_ATTEMPTS: nat := 8

  /** The next prefix length after an overflow. */
  function Shrunk(prev: nat, reserved: int, reply: Reply): int {
    if !reply.Overflow? then 0
    else if prev > reserved then (if reserved < prev - 1 then reserved else prev - 1)
    else
      var byRatio := match (reply.advertised, reply.requested)
        case (Some(advertised), Some(requested)) =>
          if advertised > 0 && requested > advertised then
            var ratio := prev * advertised / requested;
            if ratio < prev - 1 then ratio else prev - 1
          else prev / 2
        case _ => prev / 2;
      if byRatio * 10 >= prev * 9 then prev / 2 else byRatio
  }

  /** How long a retry is after this payload and this reply. */
  type Rule<!V> = (nat, Reply<V>) -> int

  function ShrinkRule<V>(reserved: int): Rule<V> {
    (prev: nat, reply: Reply<V>) => Shrunk(prev, reserved, reply)
  }

  /** The step from one payload length to the next is the snap to the reserved window. */
  predicate Snap(a: nat, b: nat, reserved: int) {
    a > reserved && b == reserved
  }

  /**
   Every payload is a strictly shorter prefix; each step is the snap or loses more than a tenth; no retry is under two
   characters.
   */
  predicate Shrinking(text: string, payloads: seq<string>, reserved: int) {
    (forall i :: 0 <= i < |payloads| ==> payloads[i] <= text)
    && forall i :: 0 <= i < |payloads| - 1 ==> Shorter(|payloads[i]|, |payloads[i + 1]|, reserved)
  }

  predicate Shorter(prev: nat, next: nat, reserved: int) {
    2 <= next < prev && (Snap(prev, next, reserved) || next * 10 < prev * 9)
  }

  /** Each retry has the length its overflow reply leads to. */
  predicate Follows<V>(payloads: seq<string>, replies: seq<Reply<V>>, rule: Rule<V>)
    requires |payloads| <= |replies|
  {
    forall i :: 0 <= i < |payloads| - 1 ==>
      replies[i].Overflow? && replies[i].kind != Mismatch && |payloads[i + 1]| == rule(|payloads[i]|, replies[i])
  }

  lemma ShrunkShrinks(prev: nat, reserved: int, reply: Reply)
    requires reply.Overflow?
    ensures Shrunk(prev, reserved, reply) < prev || (prev == 0 && Shrunk(prev, reserved, reply) <= 0)
    ensures prev > reserved ==> Shrunk(prev, reserved, reply) == reserved
    ensures 0 < prev <= reserved ==> Shrunk(prev, reserved, reply) * 10 < prev * 9
  {
    assert prev / 2 * 10 <= prev * 5;
  }

  lemma Scaled(x: int, y: int, k: int)
    requires x <= y && 0 <= k
    ensures x * k <= y * k
  {
  }

  /** A proper share is less than the whole. */
  lemma ShareIsLess(whole: nat, part: int, of: int)
    requires 0 < whole && 0 < part < of
    ensures 0 <= whole * part / of < whole
  {
    var share := whole * part / of;
    Scaled(part, of - 1, whole);
    Scaled(whole, if share < whole then whole else share, of);
    assert share * of <= whole * part < whole * of;
  }

  /**
   Once the text fits the reserved window, the next prefix is the share of this one that the server says fits, rounded
   down; half of it when the server names no share, or one of nine tenths or more.
   */
  lemma ShareIsTaken(prev: nat, reserved: int, reply: Reply)
    requires reply.Overflow? && 0 < prev <= reserved
    ensures var named := reply.advertised.Some? && reply.requested.Some?
                         && 0 < reply.advertised.value < reply.requested.value;
            Shrunk(prev, reserved, reply) ==
            if named && prev * reply.advertised.value / reply.requested.value * 10 < prev * 9
            then prev * reply.advertised.value / reply.requested.value else prev / 2
  {
    if reply.advertised.Some? && reply.requested.Some? && 0 < reply.advertised.value < reply.requested.value {
      ShareIsLess(prev, reply.advertised.value, reply.requested.value);
    }
  }

  /** The requests so far: all but the last were answered with an overflow worth a retry. */
  predicate Attempts<V>(
    text: string, maxChars: nat, payloads: seq<string>, replies: seq<Reply<V>>, reserved: int, rule: Rule<V>)
    requires |payloads| <= |replies|
  {
    payloads != []
    && payloads[0] == (if |text| > maxChars then text[..maxChars] else text)
    && Shrinking(text, payloads, reserved)
    && Follows(payloads, replies, rule)
  }

  lemma ShrinkingMore(text: string, payloads: seq<string>, next: string, reserved: int)
    requires payloads != [] && Shrinking(text, payloads, reserved)
    requires next <= payloads[|payloads| - 1] && Shorter(|payloads[|payloads| - 1]|, |next|, reserved)
    ensures Shrinking(text, payloads + [next], reserved)
  {
    assert payloads[|payloads| - 1] <= text;
  }

  lemma AttemptsMore<V>(
    text: string, maxChars: nat, payloads: seq<string>, replies: seq<Reply<V>>, reserved: int, rule: Rule<V>,
    next: string)
    requires 0 < |payloads| < |replies| && Attempts(text, maxChars, payloads, replies, reserved, rule)
    requires var input, reply := payloads[|payloads| - 1], replies[|payloads| - 1];
             && reply.Overflow? && reply.kind != Mismatch && |next| == rule(|input|, reply)
             && next <= input && Shorter(|input|, |next|, reserved)
    ensures Attempts(text, maxChars, payloads + [next], replies, reserved, rule)
  {
    ShrinkingMore(text, payloads, next, reserved);
  }

  /** get_embedding: `replies` is what the server would answer to each request. */
  method GetEmbedding<V>(
    text: string, maxChars: nat, reserved: int, replies: seq<Reply<V>>)
    returns (vector: Option<V>, payloads: seq<string>)
    requires |replies| >= MAX_ATTEMPTS
    ensures 1 <= |payloads| <= MAX_ATTEMPTS
      && Attempts(text, maxChars, payloads, replies, reserved, ShrinkRule(reserved))
    ensures var last := replies[|payloads| - 1];
            && (vector == if last.Vector? then Some(last.vector) else None)
            && (last.Overflow? && last.kind != Mismatch ==>
                  |payloads| == MAX_ATTEMPTS || Shrunk(|payloads[|payloads| - 1]|, reserved, last) < 2)
  {
    vector := None;
    var input := if |text| > maxChars then text[..maxChars] else text;
    payloads := [input];
    while true
      invariant 1 <= |payloads| <= MAX_ATTEMPTS && input == payloads[|payloads| - 1]
      invariant Attempts(text, maxChars, payloads, replies, reserved, ShrinkRule(reserved))
      decreases MAX_ATTEMPTS - |payloads|
    {
      var reply := replies[|payloads| - 1];
      match reply {
        case Raised => return;
        case Vector(v) =>
          vector := Some(v);
          return;
        case Overflow(kind, advertised, requested) =>
          if kind == Mismatch { return; }
          var newLen := Shrunk(|input|, reserved, reply);
          ShrunkShrinks(|input|, reserved, reply);
          if newLen < 2 || newLen >= |input| || |payloads| == MAX_ATTEMPTS { return; }
          AttemptsMore(text, maxChars, payloads, replies, reserved, ShrinkRule(reserved), input[..newLen]);
          input := input[..newLen];
          payloads := payloads + [input];
      }
    }
  }

  /** The snap happens at most once: after it the text fits the reserved window. */
  lemma {:induction false} SnapsAtMostOnce(text: string, payloads: seq<string>, reserved: int, i: nat, j: nat)
    requires Shrinking(text, payloads, reserved) && 1 <= i < j < |payloads|
    ensures !(Snap(|payloads[i - 1]|, |payloads[i]|, reserved) && Snap(|payloads[j - 1]|, |payloads[j]|, reserved))
  {
    LaterIsShorter(text, payloads, reserved, i, j - 1);
  }

  lemma {:induction false} LaterIsShorter(text: string, payloads: seq<string>, reserved: int, i: nat, j: nat)
    requires Shrinking(text, payloads, reserved) && i <= j < |payloads|
    ensures |payloads[j]| <= |payloads[i]|
    decreases j
  {
    if i < j { LaterIsShorter(text, payloads, reserved, i, j - 1); }
  }
}
