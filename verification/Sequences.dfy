/** Taking concatenations apart. */
module Sequences {

  lemma {:induction false} TakeApart<T>(a: seq<T>, b: seq<T>)
    ensures (a + b)[..|a|] == a && (a + b)[|a|..] == b
  {
  }

  /** Two ways of cutting one sequence, the first cut not behind the second. */
  lemma {:induction false} TwoCuts<T>(a: seq<T>, b: seq<T>, c: seq<T>, d: seq<T>)
    requires a + b == c + d && |a| <= |c|
    ensures c == a + c[|a|..] && b == c[|a|..] + d
  {
    TakeApart(a, b);
    TakeApart(c, d);
    var all := a + b;
    assert c == all[..|c|] && c[..|a|] == all[..|a|];
    assert b == all[|a|..] == c[|a|..] + d;
  }

  lemma {:induction false} Associative<T>(a: seq<T>, b: seq<T>, c: seq<T>)
    ensures a + b + c == a + (b + c)
  {
  }
}
