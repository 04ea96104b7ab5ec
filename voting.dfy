/** majority_voting (Code/Debate_strategies.py:292-327), the fallback that settles a
    debate which ran out of rounds: a tally of the agents' votes with a strict
    maximum rule, where a tie, an empty list or a vote int() rejects gives "-1". */
module Voting {
  import opened Py
  import opened Utility

  /** The string majority_voting returns on failure: str(-1). */
  const NoWinner: Value := Str("-1")

  /** The votes parsed by int(), in order; None when some entry is rejected. */
  function ParsedVotes(feedback: seq<string>): (r: Option<seq<int>>)
    ensures r.Some? ==> |r.value| == |feedback|
  {
    if feedback == [] then Some([])
    else
      match ParsedVotes(feedback[..|feedback| - 1])
      case None => None
      case Some(front) =>
        match ParseInt(feedback[|feedback| - 1])
        case None => None
        case Some(v) => Some(front + [v])
  }

  /** How many votes a value received. */
  function Count(ballots: seq<int>, v: int): nat
  {
    if ballots == [] then 0
    else Count(ballots[..|ballots| - 1], v) + (if ballots[|ballots| - 1] == v then 1 else 0)
  }

  lemma CountSnoc(ballots: seq<int>, v: int)
    ensures forall u :: Count(ballots + [v], u) == Count(ballots, u) + (if u == v then 1 else 0)
  {
    assert (ballots + [v])[..|ballots|] == ballots;
  }

  lemma {:induction false} CountPositive(ballots: seq<int>, v: int)
    ensures Count(ballots, v) > 0 <==> v in ballots
    decreases |ballots|
  {
    if ballots != [] {
      var init := ballots[..|ballots| - 1];
      CountPositive(init, v);
      assert ballots == init + [ballots[|ballots| - 1]];
    }
  }

  /** v received strictly more votes than every other voted value. */
  predicate StrictWinner(ballots: seq<int>, v: int)
  {
    v in ballots && forall u :: u in ballots && u != v ==> Count(ballots, u) < Count(ballots, v)
  }

  lemma StrictWinnerUnique(ballots: seq<int>, v: int, w: int)
    requires StrictWinner(ballots, v) && StrictWinner(ballots, w)
    ensures v == w
  {
  }

  /** The result majority_voting promises: the value with a strict majority of the
      parsed votes, or "-1" when a vote does not parse, no vote was cast, or the
      largest count is shared. */
  ghost function MajorityVote(feedback: seq<string>): Value
  {
    match ParsedVotes(feedback)
    case None => NoWinner
    case Some(ballots) =>
      if exists v :: StrictWinner(ballots, v) then
        var v :| StrictWinner(ballots, v);
        Int(v)
      else NoWinner
  }

  // ------------------------------------------------------------ the tally

  predicate AllIn(votes: map<int, nat>, keys: seq<int>)
  {
    forall i :: 0 <= i < |keys| ==> keys[i] in votes
  }

  /** The largest count among some keys (0 for none). */
  function MaxCount(votes: map<int, nat>, keys: seq<int>): nat
    requires AllIn(votes, keys)
  {
    if keys == [] then 0
    else
      var m := MaxCount(votes, keys[..|keys| - 1]);
      var c := votes[keys[|keys| - 1]];
      if c > m then c else m
  }

  /** How many of some keys have exactly m votes. */
  function NumWith(votes: map<int, nat>, keys: seq<int>, m: nat): nat
    requires AllIn(votes, keys)
  {
    if keys == [] then 0
    else
      NumWith(votes, keys[..|keys| - 1], m) + (if votes[keys[|keys| - 1]] == m then 1 else 0)
  }

  lemma {:induction false} MaxCountBounds(votes: map<int, nat>, keys: seq<int>)
    requires AllIn(votes, keys)
    ensures forall k :: k in keys ==> votes[k] <= MaxCount(votes, keys)
    decreases |keys|
  {
    if keys != [] {
      var init := keys[..|keys| - 1];
      MaxCountBounds(votes, init);
      assert keys == init + [keys[|keys| - 1]];
    }
  }

  lemma {:induction false} NumWithAboveMax(votes: map<int, nat>, keys: seq<int>, c: nat)
    requires AllIn(votes, keys) && c > MaxCount(votes, keys)
    ensures NumWith(votes, keys, c) == 0
    decreases |keys|
  {
    if keys != [] {
      var init := keys[..|keys| - 1];
      NumWithAboveMax(votes, init, c);
    }
  }

  /** Two different keys holding m votes make the count of m at least two. */
  lemma {:induction false} NumWithTwo(votes: map<int, nat>, keys: seq<int>, m: nat, a: int, b: int)
    requires AllIn(votes, keys) && a in keys && b in keys && a != b
    requires votes[a] == m && votes[b] == m
    ensures NumWith(votes, keys, m) >= 2
    decreases |keys|
  {
    var init := keys[..|keys| - 1];
    var last := keys[|keys| - 1];
    assert keys == init + [last];
    if last == a {
      NumWithOne(votes, init, m, b);
    } else if last == b {
      NumWithOne(votes, init, m, a);
    } else {
      NumWithTwo(votes, init, m, a, b);
    }
  }

  lemma {:induction false} NumWithOne(votes: map<int, nat>, keys: seq<int>, m: nat, a: int)
    requires AllIn(votes, keys) && a in keys && votes[a] == m
    ensures NumWith(votes, keys, m) >= 1
    decreases |keys|
  {
    var init := keys[..|keys| - 1];
    assert keys == init + [keys[|keys| - 1]];
    if keys[|keys| - 1] != a {
      NumWithOne(votes, init, m, a);
    }
  }

  /** Without repeats, keys other than a that all miss m leave the count of m at most one. */
  lemma {:induction false} NumWithAtMostOne(votes: map<int, nat>, keys: seq<int>, m: nat, a: int)
    requires AllIn(votes, keys) && NoRepeats(keys)
    requires forall b :: b in keys && b != a ==> votes[b] != m
    ensures NumWith(votes, keys, m) <= (if a in keys then 1 else 0)
    decreases |keys|
  {
    if keys != [] {
      var init := keys[..|keys| - 1];
      var last := keys[|keys| - 1];
      assert keys == init + [last];
      assert NoRepeats(init);
      NumWithAtMostOne(votes, init, m, a);
      if last == a {
        assert a !in init;
      }
    }
  }

  /** The last loop of majority_voting decides the strict-majority rule. */
  lemma TallyDecides(ballots: seq<int>, votes: map<int, nat>, order: seq<int>, winner: int)
    requires order != [] && NoRepeats(order) && AllIn(votes, order)
    requires forall v :: v in order <==> v in votes
    requires forall v :: v in votes <==> v in ballots
    requires forall v :: v in votes ==> votes[v] == Count(ballots, v)
    requires winner in votes && votes[winner] == MaxCount(votes, order)
    ensures NumWith(votes, order, MaxCount(votes, order)) == 1 <==> StrictWinner(ballots, winner)
    ensures NumWith(votes, order, MaxCount(votes, order)) != 1 ==> forall v :: !StrictWinner(ballots, v)
  {
    var m := MaxCount(votes, order);
    MaxCountBounds(votes, order);
    NumWithOne(votes, order, m, winner);
    if NumWith(votes, order, m) == 1 {
      forall u | u in ballots && u != winner ensures Count(ballots, u) < Count(ballots, winner) {
        if votes[u] == m {
          NumWithTwo(votes, order, m, winner, u);
        }
      }
    } else {
      if forall b :: b in order && b != winner ==> votes[b] != m {
        NumWithAtMostOne(votes, order, m, winner);
      }
      var u :| u in order && u != winner && votes[u] == m;
      forall v ensures !StrictWinner(ballots, v) {
        if v in ballots && v != winner {
          assert Count(ballots, winner) >= Count(ballots, v);
        } else if v == winner {
          assert Count(ballots, u) == Count(ballots, winner);
        }
      }
    }
  }

  lemma {:induction false} ParsedVotesFailFrom(feedback: seq<string>, n: nat)
    requires 0 < n <= |feedback| && ParsedVotes(feedback[..n]).None?
    ensures ParsedVotes(feedback).None?
    decreases |feedback| - n
  {
    if n < |feedback| {
      assert feedback[..n + 1][..n] == feedback[..n];
      ParsedVotesFailFrom(feedback, n + 1);
    } else {
      assert feedback[..n] == feedback;
    }
  }

  lemma ParsedVotesRejected(feedback: seq<string>, i: nat)
    requires i < |feedback| && ParsedVotes(feedback[..i]).Some? && ParseInt(feedback[i]).None?
    ensures ParsedVotes(feedback).None?
  {
    assert feedback[..i + 1][..i] == feedback[..i];
    ParsedVotesFailFrom(feedback, i + 1);
  }

  lemma ParsedVotesWhole(feedback: seq<string>)
    ensures ParsedVotes(feedback[..|feedback|]) == ParsedVotes(feedback)
  {
    assert feedback[..|feedback|] == feedback;
  }

  /** `votes` and its insertion order `order` count the ballots cast so far. */
  ghost predicate Tallied(ballots: seq<int>, votes: map<int, nat>, order: seq<int>)
  {
    && (forall v :: v in votes <==> v in ballots)
    && (forall v :: v in votes ==> votes[v] == Count(ballots, v) && votes[v] > 0)
    && NoRepeats(order)
    && (forall v :: v in order <==> v in votes)
    && AllIn(votes, order)
  }

  /** `votes[agent_index] = votes.get(agent_index, 0) + 1`, new keys going last. */
  function AddVote(votes: map<int, nat>, v: int): map<int, nat>
  {
    votes[v := (if v in votes then votes[v] else 0) + 1]
  }

  function AddKey(votes: map<int, nat>, order: seq<int>, v: int): seq<int>
  {
    if v in votes then order else order + [v]
  }

  lemma TallyStep(ballots: seq<int>, votes: map<int, nat>, order: seq<int>, v: int)
    requires Tallied(ballots, votes, order)
    ensures Tallied(ballots + [v], AddVote(votes, v), AddKey(votes, order, v))
  {
    CountSnoc(ballots, v);
    CountPositive(ballots, v);
    var order' := AddKey(votes, order, v);
    forall i | 0 <= i < |order'| ensures order'[i] in AddVote(votes, v) {
      assert order'[i] in order';
    }
  }

  lemma ParsedVotesStep(feedback: seq<string>, i: nat, ballots: seq<int>, v: int)
    requires i < |feedback| && ParsedVotes(feedback[..i]) == Some(ballots) && ParseInt(feedback[i]) == Some(v)
    ensures ParsedVotes(feedback[..i + 1]) == Some(ballots + [v])
  {
    assert feedback[..i + 1][..i] == feedback[..i];
  }

  /** An empty dict means no vote was cast and no key was recorded. */
  lemma TallyEmpty(ballots: seq<int>, votes: map<int, nat>, order: seq<int>)
    requires Tallied(ballots, votes, order)
    ensures |votes| == 0 <==> ballots == []
    ensures ballots != [] ==> order != []
  {
    assert forall v :: v in votes <==> v in ballots;
    assert forall v :: v in order <==> v in votes;
    if ballots == [] {
      forall v ensures v !in votes {
        assert v !in ballots;
      }
      assert votes.Keys == {};
    } else {
      assert ballots[0] in ballots;
    }
  }

  /** The first loop of majority_voting: the `votes` dict and its insertion order, or
      failure at the first entry int() rejects. */
  method TallyVotes(feedback: seq<string>) returns (ok: bool, votes: map<int, nat>, order: seq<int>, ghost ballots: seq<int>)
    ensures ok <==> ParsedVotes(feedback).Some?
    ensures ok ==> ParsedVotes(feedback) == Some(ballots) && Tallied(ballots, votes, order)
  {
    votes := map[];
    order := [];
    ballots := [];
    for i := 0 to |feedback|
      invariant ParsedVotes(feedback[..i]) == Some(ballots)
      invariant Tallied(ballots, votes, order)
    {
      var agentIndex := ParseInt(feedback[i]);
      if agentIndex.None? {
        ParsedVotesRejected(feedback, i);
        return false, votes, order, ballots;
      }
      var v := agentIndex.value;
      ParsedVotesStep(feedback, i, ballots, v);
      TallyStep(ballots, votes, order, v);
      order := AddKey(votes, order, v);
      votes := AddVote(votes, v);
      ballots := ballots + [v];
    }
    ParsedVotesWhole(feedback);
    ok := true;
  }

  /** The second loop of majority_voting: the largest count, a key holding it and
      how many keys hold it. */
  method ScanVotes(votes: map<int, nat>, order: seq<int>) returns (maxVotes: nat, winner: int, winnerCount: nat)
    requires AllIn(votes, order)
    requires forall k :: k in votes ==> votes[k] > 0
    ensures maxVotes == MaxCount(votes, order)
    ensures winnerCount == NumWith(votes, order, maxVotes)
    ensures order != [] ==> winner in votes && votes[winner] == maxVotes
  {
    maxVotes := 0;
    winner := -1;
    winnerCount := 0;
    for j := 0 to |order|
      invariant maxVotes == MaxCount(votes, order[..j])
      invariant winnerCount == NumWith(votes, order[..j], maxVotes)
      invariant j > 0 ==> winner in votes && votes[winner] == maxVotes
    {
      var agent := order[j];
      assert agent in order;
      var voteCount := votes[agent];
      assert order[..j + 1] == order[..j] + [agent];
      if voteCount > maxVotes {
        NumWithAboveMax(votes, order[..j], voteCount);
        maxVotes := voteCount;
        winner := agent;
        winnerCount := 1;
      } else if voteCount == maxVotes {
        winnerCount := winnerCount + 1;
      }
    }
    assert order[..|order|] == order;
  }

  /** majority_voting: tally the votes, scan for the largest count, and return the
      index holding it when no other index does. The agent count is not used, as
      in the source. */
  method MajorityVoting(agentsNo: int, feedback: seq<string>) returns (r: Value)
    ensures r == MajorityVote(feedback)
  {
    var ok, votes, order, ballots := TallyVotes(feedback);
    assert ok ==> Tallied(ballots, votes, order);
    if !ok {
      return NoWinner;
    }
    if |votes| == 0 {
      TallyEmpty(ballots, votes, order);
      return NoWinner;
    }
    TallyEmpty(ballots, votes, order);
    var maxVotes, winner, winnerCount := ScanVotes(votes, order);
    TallyDecides(ballots, votes, order, winner);
    if winnerCount == 1 {
      WinnerIffStrictMajority(feedback, winner);
      return Int(winner);
    } else {
      return NoWinner;
    }
  }

  // ------------------------------------------------------------ properties

  /** The result is a voted index exactly when that index has a strict majority. */
  lemma WinnerIffStrictMajority(feedback: seq<string>, v: int)
    ensures MajorityVote(feedback) == Int(v) <==> ParsedVotes(feedback).Some? && StrictWinner(ParsedVotes(feedback).value, v)
  {
    if ParsedVotes(feedback).Some? && StrictWinner(ParsedVotes(feedback).value, v) {
      var w :| StrictWinner(ParsedVotes(feedback).value, w);
      StrictWinnerUnique(ParsedVotes(feedback).value, v, w);
    }
  }

  /** "-1" comes back for no votes, for any vote int() rejects (wherever it stands),
      and whenever the largest count is shared by two indices. */
  lemma NoWinnerCases(feedback: seq<string>, i: nat, a: int, b: int)
    ensures feedback == [] ==> MajorityVote(feedback) == NoWinner
    ensures i < |feedback| && ParseInt(feedback[i]).None? ==> MajorityVote(feedback) == NoWinner
    ensures ParsedVotes(feedback).Some? && a != b && a in ParsedVotes(feedback).value && b in ParsedVotes(feedback).value
            && Count(ParsedVotes(feedback).value, a) == Count(ParsedVotes(feedback).value, b)
            && (forall u :: u in ParsedVotes(feedback).value ==> Count(ParsedVotes(feedback).value, u) <= Count(ParsedVotes(feedback).value, a))
            ==> MajorityVote(feedback) == NoWinner
  {
    if i < |feedback| && ParseInt(feedback[i]).None? {
      ParsedVotesAbort(feedback, i);
    }
  }

  /** One vote int() rejects makes the whole tally fail. */
  lemma {:induction false} ParsedVotesAbort(feedback: seq<string>, i: nat)
    requires i < |feedback| && ParseInt(feedback[i]).None?
    ensures ParsedVotes(feedback).None?
    decreases |feedback|
  {
    if i < |feedback| - 1 {
      var init := feedback[..|feedback| - 1];
      assert init[i] == feedback[i];
      ParsedVotesAbort(init, i);
    }
  }

  /** Some parsed vote is the winner whenever there is one: the result is always one
      of the voted values. */
  lemma {:induction false} VotesAreParsedEntries(feedback: seq<string>, v: int)
    requires ParsedVotes(feedback).Some? && v in ParsedVotes(feedback).value
    ensures exists i :: 0 <= i < |feedback| && ParseInt(feedback[i]) == Some(v)
    decreases |feedback|
  {
    var init := feedback[..|feedback| - 1];
    var front := ParsedVotes(init).value;
    if v in front {
      VotesAreParsedEntries(init, v);
      var i :| 0 <= i < |init| && ParseInt(init[i]) == Some(v);
      assert feedback[i] == init[i];
    } else {
      assert ParseInt(feedback[|feedback| - 1]) == Some(v);
    }
  }

  lemma WinnerWasVoted(feedback: seq<string>, v: int)
    requires MajorityVote(feedback) == Int(v)
    ensures exists i :: 0 <= i < |feedback| && ParseInt(feedback[i]) == Some(v)
  {
    WinnerIffStrictMajority(feedback, v);
    VotesAreParsedEntries(feedback, v);
  }

  /** There is no range check: any index two of three agents name wins, even one
      that is negative or beyond the number of agents. */
  lemma RepeatedVoteWins(a: string, b: string, n: int, m: int)
    requires ParseInt(a) == Some(n) && ParseInt(b) == Some(m)
    ensures MajorityVote([a, a, b]) == Int(n)
  {
    ParsedThree(a, b, n, m);
    TwoOfThree(n, m);
    WinnerIffStrictMajority([a, a, b], n);
  }

  lemma ParsedThree(a: string, b: string, n: int, m: int)
    requires ParseInt(a) == Some(n) && ParseInt(b) == Some(m)
    ensures ParsedVotes([a, a, b]) == Some([n, n, m])
  {
    var feedback := [a, a, b];
    assert feedback[..0] == [];
    ParsedVotesStep(feedback, 0, [], n);
    assert [] + [n] == [n] && [n] + [n] == [n, n] && [n, n] + [m] == [n, n, m];
    ParsedVotesStep(feedback, 1, [n], n);
    ParsedVotesStep(feedback, 2, [n, n], m);
    assert feedback[..3] == feedback;
  }

  lemma TwoOfThree(n: int, m: int)
    ensures StrictWinner([n, n, m], n)
  {
    var ballots := [n, n, m];
    assert [n][..0] == [] && [n, n][..1] == [n] && ballots[..2] == [n, n];
    assert Count([n], n) == 1;
    assert Count([n, n], n) == 2;
    assert Count(ballots, n) >= 2;
    forall u | u in ballots && u != n ensures Count(ballots, u) < Count(ballots, n) {
      assert Count([n], u) == 0;
      assert Count([n, n], u) == 0;
      assert Count(ballots, u) <= 1;
    }
  }

  /** The same with the votes spelled as str() would spell the indices. */
  lemma RepeatedIndexWins(n: int, m: int)
    ensures MajorityVote([IntToStr(n), IntToStr(n), IntToStr(m)]) == Int(n)
  {
    ParseIntOfIntToStr(n);
    ParseIntOfIntToStr(m);
    RepeatedVoteWins(IntToStr(n), IntToStr(m), n, m);
  }
}
