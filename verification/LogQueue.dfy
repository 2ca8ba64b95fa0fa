/** The bounded queue of the audit log: one drain task, two ways to give way when it is full. */
module LogQueue {

  /** `sub` is what is left of `s` after striking some of its elements. */
  ghost predicate Subsequence<T>(sub: seq<T>, s: seq<T>) {
    if s == [] then sub == []
    else
      Subsequence(sub, s[..|s| - 1])
      || (sub != [] && sub[|sub| - 1] == s[|s| - 1] && Subsequence(sub[..|sub| - 1], s[..|s| - 1]))
  }

  /** Striking one more element leaves a subsequence. */
  lemma {:induction false} DropOne<T>(a: seq<T>, x: T, b: seq<T>, s: seq<T>)
    requires Subsequence(a + [x] + b, s)
    ensures Subsequence(a + b, s)
    decreases |s|
  {
    var sub := a + [x] + b;
    var front := s[..|s| - 1];
    if Subsequence(sub, front) {
      DropOne(a, x, b, front);
    } else if b == [] {
      assert sub[..|sub| - 1] == a && a + b == a;
    } else {
      assert sub[..|sub| - 1] == a + [x] + b[..|b| - 1];
      DropOne(a, x, b[..|b| - 1], front);
      assert (a + b)[..|a + b| - 1] == a + b[..|b| - 1];
    }
  }

  /** A longer list still has the subsequence. */
  lemma SubsequenceOfMore<T>(sub: seq<T>, s: seq<T>, x: T)
    requires Subsequence(sub, s)
    ensures Subsequence(sub, s + [x])
  {
    assert (s + [x])[..|s|] == s;
  }

  lemma AppendBoth<T>(sub: seq<T>, s: seq<T>, x: T)
    requires Subsequence(sub, s)
    ensures Subsequence(sub + [x], s + [x])
  {
    assert (sub + [x])[..|sub|] == sub && (s + [x])[..|s|] == s;
  }

  class AsyncLineWriter {
    const maxsize: nat
    var queue: seq<string>
    var inFlight: seq<string>
    var dropped: nat
    var file: seq<string>
    ghost var failed: nat
    ghost var submitted: seq<string>

    /** asyncio treats a maximum of zero as no maximum. */
    predicate Full()
      reads this
    {
      0 < maxsize <= |queue|
    }

    ghost predicate Valid()
      reads this
    {
      |inFlight| <= 1
      && (maxsize > 0 ==> |queue| <= maxsize)
      && Subsequence(file + inFlight + queue, submitted)
      && |submitted| == |file| + failed + |inFlight| + |queue| + dropped
    }

    constructor (maxsize: nat)
      ensures Valid() && this.maxsize == maxsize && queue == [] && file == [] && submitted == []
    {
      this.maxsize := maxsize;
      queue, inFlight, dropped, file, failed, submitted := [], [], 0, [], 0, [];
    }

    /** write, with a running loop. */
    method Write(line: string, dropNewestWhenFull: bool)
      requires Valid()
      modifies this
      ensures Valid() && submitted == old(submitted) + [line]
      ensures file == old(file) && inFlight == old(inFlight) && failed == old(failed)
      ensures queue == if !old(Full()) then old(queue) + [line]
                       else if dropNewestWhenFull then old(queue)
                       else old(queue)[1..] + [line]
      ensures dropped == old(dropped) + if old(Full()) then 1 else 0
    {
      ghost var before := file + inFlight;
      submitted := submitted + [line];
      if !Full() {
        AppendBoth(file + inFlight + queue, old(submitted), line);
        assert before + (queue + [line]) == file + inFlight + queue + [line];
        queue := queue + [line];
        return;
      }
      if dropNewestWhenFull {
        SubsequenceOfMore(file + inFlight + queue, old(submitted), line);
        dropped := dropped + 1;
        return;
      }
      assert before + queue == before + [queue[0]] + queue[1..];
      DropOne(before, queue[0], queue[1..], old(submitted));
      AppendBoth(before + queue[1..], old(submitted), line);
      assert before + (queue[1..] + [line]) == before + queue[1..] + [line];
      queue := queue[1..] + [line];
      dropped := dropped + 1;
    }

    /** The drain task takes the next line. */
    method Take() returns (taken: bool)
      requires Valid() && inFlight == []
      modifies this
      ensures Valid() && taken == (old(queue) != [])
      ensures submitted == old(submitted) && file == old(file) && dropped == old(dropped) && failed == old(failed)
      ensures inFlight + queue == old(queue) && |inFlight| == if taken then 1 else 0
    {
      taken := queue != [];
      if taken {
        assert file + [] + queue == file + [queue[0]] + queue[1..];
        inFlight, queue := [queue[0]], queue[1..];
      }
    }

    /** The append in the executor ended; a failed one is swallowed. */
    method Finish(succeeded: bool)
      requires Valid() && inFlight != []
      modifies this
      ensures Valid() && inFlight == []
      ensures file == old(file) + if succeeded then old(inFlight) else []
      ensures submitted == old(submitted) && queue == old(queue) && dropped == old(dropped)
      ensures failed == old(failed) + if succeeded then 0 else 1
    {
      if succeeded {
        assert file + inFlight + [] + queue == file + inFlight + queue;
        file := file + inFlight;
      } else {
        DropOne(file, inFlight[0], queue, submitted) by { assert inFlight == [inFlight[0]]; }
        assert file + [] + queue == file + queue;
        failed := failed + 1;
      }
      inFlight := [];
    }
  }
}
