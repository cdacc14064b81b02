/** What an SQL query "ORDER BY rank ASC LIMIT n" may return: equal ranks come in any order. */
module Query {
  import opened Basics

  ghost predicate Ascending<K>(rank: map<K, int>, out: seq<K>)
    requires forall i :: 0 <= i < |out| ==> out[i] in rank
  {
    forall i, j :: 0 <= i < j < |out| ==> rank[out[i]] <= rank[out[j]]
  }

  /** out holds the n lowest keys of rank (all of them if there are fewer), lowest first. */
  ghost predicate FirstBy<K(!new)>(rank: map<K, int>, n: nat, out: seq<K>) {
    && Distinct(out)
    && |out| <= n
    && (forall i :: 0 <= i < |out| ==> out[i] in rank)
    && Ascending(rank, out)
    && (forall k :: k in rank && k !in out ==> |out| == n && forall i :: 0 <= i < |out| ==> rank[out[i]] <= rank[k])
  }

  method Lowest<K>(rank: map<K, int>, rest: set<K>) returns (low: K)
    requires rest <= rank.Keys && rest != {}
    ensures low in rest
    ensures forall k :: k in rest ==> rank[low] <= rank[k]
  {
    low :| low in rest;
    var todo := rest - {low};
    while todo != {}
      invariant todo <= rest && low in rest
      invariant forall k :: k in rest && k !in todo ==> rank[low] <= rank[k]
      decreases |todo|
    {
      var k :| k in todo;
      if rank[k] < rank[low] {
        low := k;
      }
      todo := todo - {k};
    }
  }

  /** out holds some of the lowest keys of rank, lowest first, and rest the others. */
  ghost predicate Chosen<K(!new)>(rank: map<K, int>, out: seq<K>, rest: set<K>) {
    && Distinct(out)
    && (forall k :: k in rank <==> k in out || k in rest)
    && (forall i :: 0 <= i < |out| ==> out[i] in rank && out[i] !in rest)
    && Ascending(rank, out)
    && rest <= rank.Keys
    && (forall i, k :: 0 <= i < |out| && k in rest ==> rank[out[i]] <= rank[k])
  }

  lemma ChooseLowest<K(!new)>(rank: map<K, int>, out: seq<K>, rest: set<K>, low: K)
    requires Chosen(rank, out, rest)
    requires low in rest && forall k :: k in rest ==> k in rank && rank[low] <= rank[k]
    ensures Chosen(rank, out + [low], rest - {low})
  {
    var longer, fewer := out + [low], rest - {low};
    forall k ensures k in rank <==> k in longer || k in fewer {
      assert k in longer <==> k in out || k == low;
    }
    forall i | 0 <= i < |longer| ensures longer[i] in rank && longer[i] !in fewer {
    }
    assert Ascending(rank, longer);
  }

  method SelectFirst<K(!new)>(rank: map<K, int>, n: nat) returns (out: seq<K>)
    ensures FirstBy(rank, n, out)
  {
    out := [];
    var rest := rank.Keys;
    while |out| < n && rest != {}
      invariant |out| <= n
      invariant Chosen(rank, out, rest)
      decreases |rest|
    {
      var low := Lowest(rank, rest);
      ChooseLowest(rank, out, rest, low);
      out := out + [low];
      rest := rest - {low};
    }
  }

  lemma {:induction false} LowestExists<K>(rank: map<K, int>, rest: set<K>) returns (low: K)
    requires rest <= rank.Keys && rest != {}
    ensures low in rest && forall k :: k in rest ==> rank[low] <= rank[k]
    decreases |rest|
  {
    low :| low in rest;
    if rest != {low} {
      var other := LowestExists(rank, rest - {low});
      if rank[other] < rank[low] {
        low := other;
      }
    }
  }

  /** Every query has an answer. */
  lemma AnswerExists<K(!new)>(rank: map<K, int>, n: nat) returns (out: seq<K>)
    ensures FirstBy(rank, n, out)
  {
    out := [];
    var rest := rank.Keys;
    while |out| < n && rest != {}
      invariant |out| <= n && Chosen(rank, out, rest)
      decreases |rest|
    {
      var low := LowestExists(rank, rest);
      ChooseLowest(rank, out, rest, low);
      out, rest := out + [low], rest - {low};
    }
  }
}
