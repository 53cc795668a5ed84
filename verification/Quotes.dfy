/** `QuoteBook`: the recent quotes of each instrument, oldest first. */
module Quotes {
  import opened Prelude

  /** Times are milliseconds. */
  datatype Quote = Quote(security: string, last: real, at: int, bid: Option<real>, ask: Option<real>) {
    predicate HasDepth() { bid.Some? && ask.Some? }
  }

  /** A bounded deque: the oldest quote makes room. */
  function Append(qs: seq<Quote>, depth: nat, q: Quote): seq<Quote> {
    var all := qs + [q];
    if |all| > depth then all[|all| - depth..] else all
  }

  function Retained(quotes: map<string, seq<Quote>>, security: string): seq<Quote> {
    if security in quotes then quotes[security] else []
  }

  /** The oldest of these quotes at or after the deadline. */
  function FirstFrom(qs: seq<Quote>, deadline: int): (r: Option<Quote>)
    ensures r.Some? <==> exists i :: 0 <= i < |qs| && qs[i].at >= deadline
    ensures r.Some? ==> exists i :: 0 <= i < |qs| && r.value == qs[i] && qs[i].at >= deadline
                                    && forall j | 0 <= j < i :: qs[j].at < deadline
  {
    if qs == [] then None
    else if qs[0].at >= deadline then Some(qs[0])
    else
      var r := FirstFrom(qs[1..], deadline);
      assert forall i | 1 <= i < |qs| :: qs[i] == qs[1..][i - 1];
      r
  }

  // ------------------------------------------------------------------ the book and its history

  function Recorded(quotes: map<string, seq<Quote>>, depth: nat, q: Quote): map<string, seq<Quote>> {
    quotes[q.security := Append(Retained(quotes, q.security), depth, q)]
  }

  function Run(depth: nat, h: seq<Quote>): map<string, seq<Quote>> {
    if h == [] then map[] else Recorded(Run(depth, h[..|h| - 1]), depth, h[|h| - 1])
  }

  function Of(h: seq<Quote>, security: string): seq<Quote> {
    if h == [] then []
    else Of(h[..|h| - 1], security) + if h[|h| - 1].security == security then [h[|h| - 1]] else []
  }

  function Suffix(qs: seq<Quote>, n: nat): seq<Quote> {
    if |qs| > n then qs[|qs| - n..] else qs
  }

  /** The book retains exactly the last `depth` quotes of each instrument. */
  lemma {:induction false} RetainsTheLatest(depth: nat, h: seq<Quote>, security: string)
    requires depth > 0
    ensures Retained(Run(depth, h), security) == Suffix(Of(h, security), depth)
    ensures forall i | 0 <= i < |Of(h, security)| :: Of(h, security)[i].security == security
  {
    if h != [] {
      var init, q := h[..|h| - 1], h[|h| - 1];
      RetainsTheLatest(depth, init, security);
      if q.security == security {
        AppendIsSuffix(Of(init, security), depth, q);
      } else {
        assert Of(h, security) == Of(init, security);
      }
    }
  }

  lemma AppendIsSuffix(qs: seq<Quote>, depth: nat, q: Quote)
    requires depth > 0
    ensures Append(Suffix(qs, depth), depth, q) == Suffix(qs + [q], depth)
  {
  }

  lemma {:induction false} FirstFromSkips(qs: seq<Quote>, k: nat, deadline: int)
    requires k <= |qs| && forall j | 0 <= j < k :: qs[j].at < deadline
    ensures FirstFrom(qs, deadline) == FirstFrom(qs[k..], deadline)
  {
    if k > 0 {
      assert qs[1..][k - 1..] == qs[k..];
      FirstFromSkips(qs[1..], k - 1, deadline);
    }
  }

  /** A quote that met the deadline has been evicted. */
  ghost predicate Evicted(qs: seq<Quote>, depth: nat, deadline: int) {
    exists i :: 0 <= i < |qs| - depth && qs[i].at >= deadline
  }

  lemma FirstIsRetained(qs: seq<Quote>, depth: nat, deadline: int)
    requires !Evicted(qs, depth, deadline)
    ensures FirstFrom(Suffix(qs, depth), deadline) == FirstFrom(qs, deadline)
  {
    if |qs| > depth {
      var k := |qs| - depth;
      forall j | 0 <= j < k ensures qs[j].at < deadline {
      }
      FirstFromSkips(qs, k, deadline);
    }
  }

  lemma FirstIsEvicted(qs: seq<Quote>, depth: nat, deadline: int) returns (i: nat)
    requires Evicted(qs, depth, deadline)
    ensures i < |qs| - depth && FirstFrom(qs, deadline) == Some(qs[i])
  {
    var k: int :| 0 <= k < |qs| - depth && qs[k].at >= deadline;
    var r := FirstFrom(qs, deadline);
    i :| 0 <= i < |qs| && r.value == qs[i] && qs[i].at >= deadline && forall j | 0 <= j < i :: qs[j].at < deadline;
    assert i <= k;
  }

  /**
   The latency quote is the oldest ever recorded at or after the deadline as long as none that met
   the deadline was evicted; otherwise that oldest one is among the evicted.
   */
  lemma AfterIsOldestEver(depth: nat, h: seq<Quote>, security: string, deadline: int)
    requires depth > 0
    ensures var all, kept := Of(h, security), Retained(Run(depth, h), security);
            && (!Evicted(all, depth, deadline) ==> FirstFrom(kept, deadline) == FirstFrom(all, deadline))
            && (Evicted(all, depth, deadline) ==>
                  exists i :: 0 <= i < |all| - depth && FirstFrom(all, deadline) == Some(all[i]) && kept == all[|all| - depth..])
  {
    RetainsTheLatest(depth, h, security);
    var all := Of(h, security);
    if Evicted(all, depth, deadline) {
      var i := FirstIsEvicted(all, depth, deadline);
    } else {
      FirstIsRetained(all, depth, deadline);
    }
  }

  class QuoteBook {
    const depth: nat
    var quotes: map<string, seq<Quote>>
    var recorded: nat

    constructor (depth: nat)
      requires depth >= 1
      ensures this.depth == depth && quotes == map[] && recorded == 0
    {
      this.depth := depth;
      quotes, recorded := map[], 0;
    }

    method Record(q: Quote)
      modifies this
      ensures quotes == Recorded(old(quotes), depth, q) && recorded == old(recorded) + 1
    {
      var qs := if q.security in quotes then quotes[q.security] else [];
      qs := qs + [q];
      if |qs| > depth {
        qs := qs[|qs| - depth..];
      }
      quotes := quotes[q.security := qs];
      recorded := recorded + 1;
    }

    method Latest(security: string) returns (q: Option<Quote>)
      ensures var qs := Retained(quotes, security); q == if qs == [] then None else Some(qs[|qs| - 1])
    {
      if security !in quotes || quotes[security] == [] {
        return None;
      }
      q := Some(quotes[security][|quotes[security]| - 1]);
    }

    /** `after`: the oldest retained quote at or after the deadline. */
    method After(security: string, deadline: int) returns (q: Option<Quote>)
      ensures q == FirstFrom(Retained(quotes, security), deadline)
    {
      if security !in quotes {
        return None;
      }
      var qs, i := quotes[security], 0;
      while i < |qs|
        invariant 0 <= i <= |qs| && forall j | 0 <= j < i :: qs[j].at < deadline
      {
        if qs[i].at >= deadline {
          FirstFromSkips(qs, i, deadline);
          return Some(qs[i]);
        }
        i := i + 1;
      }
      q := None;
    }
  }
}
