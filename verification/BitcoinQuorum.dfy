/** The balance of a bitcoin address, agreed on by two of several providers. */
module BitcoinQuorum {
  import opened Wrappers

  /** What a provider reports; an absent balance stands for null. */
  datatype Info = Info(balance: Option<string>, events: seq<string>)

  /** A provider answers, or its call rejects. */
  type Response = Result<Info, string>

  datatype Count = Count(count: nat, value: Info)

  const TOO_FEW := "At least two bitcoin providers are needed"
  const NO_QUORUM := "Error getting the balance from the bitcoin providers"

  /** The balance is usable: not null, and not the text that providers use for an error. */
  predicate Usable(i: Info) {
    i.balance.Some? && i.balance.value != "-1"
  }

  /** How many of the answers report a balance. */
  function Votes(infos: seq<Info>, balance: string): nat {
    if infos == [] then 0
    else
      Votes(infos[..|infos| - 1], balance)
        + if Usable(infos[|infos| - 1]) && infos[|infos| - 1].balance.value == balance then 1 else 0
  }

  /** Two of the answers agree. */
  ghost predicate Agree(infos: seq<Info>) {
    exists b :: Votes(infos, b) >= 2
  }

  lemma VotesSnoc(infos: seq<Info>, i: Info, b: string)
    ensures Votes(infos + [i], b) == Votes(infos, b) + if Usable(i) && i.balance.value == b then 1 else 0
  {
    assert (infos + [i])[..|infos|] == infos;
  }

  /** The info is the first one with its balance. */
  ghost predicate First(infos: seq<Info>, info: Info) {
    exists k :: IsFirst(infos, info, k)
  }

  predicate IsFirst(infos: seq<Info>, info: Info, k: int) {
    0 <= k < |infos| && infos[k] == info && forall j :: 0 <= j < k ==> infos[j].balance != info.balance
  }

  lemma FirstSnoc(infos: seq<Info>, i: Info)
    ensures forall info :: First(infos, info) ==> First(infos + [i], info)
    ensures (forall j :: 0 <= j < |infos| ==> infos[j].balance != i.balance) ==> First(infos + [i], i)
  {
    forall info | First(infos, info) ensures First(infos + [i], info) {
      var k :| IsFirst(infos, info, k);
      assert IsFirst(infos + [i], info, k);
    }
    if forall j :: 0 <= j < |infos| ==> infos[j].balance != i.balance {
      assert IsFirst(infos + [i], i, |infos|);
    }
  }

  lemma NoVotes(infos: seq<Info>)
    ensures forall b :: Votes(infos[..0], b) == 0
  {
  }

  lemma {:induction false} NoVoteNoBalance(infos: seq<Info>, b: string)
    requires Votes(infos, b) == 0 && b != "-1"
    ensures forall j :: 0 <= j < |infos| ==> infos[j].balance != Some(b)
  {
    if infos != [] {
      NoVoteNoBalance(infos[..|infos| - 1], b);
    }
  }

  // ---------- the program's own form ----------

  /**
   Counts the usable answers by balance and picks one with the highest count. The
   program sorts an object's values; which of several equal counts comes first is
   left open here.
   */
  method GetMostCommonBalance(infos: seq<Info>) returns (r: Option<Count>)
    ensures r.None? ==> forall b :: Votes(infos, b) == 0
    ensures r.Some? ==>
      && First(infos, r.value.value) && Usable(r.value.value)
      && r.value.count == Votes(infos, r.value.value.balance.value) > 0
      && forall b :: Votes(infos, b) <= r.value.count
  {
    hide First, Votes;
    var counts: map<string, Count> := map[];
    NoVotes(infos);
    for i := 0 to |infos|
      invariant forall b :: Votes(infos[..i], b) == if b in counts then counts[b].count else 0
      invariant forall b :: b in counts ==>
        counts[b].count > 0 && First(infos[..i], counts[b].value) && Usable(counts[b].value) && counts[b].value.balance.value == b
    {
      assert infos[..i + 1] == infos[..i] + [infos[i]];
      forall b ensures Votes(infos[..i + 1], b) == Votes(infos[..i], b) + if Usable(infos[i]) && infos[i].balance.value == b then 1 else 0 {
        VotesSnoc(infos[..i], infos[i], b);
      }
      FirstSnoc(infos[..i], infos[i]);
      if Usable(infos[i]) {
        var b := infos[i].balance.value;
        if b !in counts {
          NoVoteNoBalance(infos[..i], b);
          counts := counts[b := Count(0, infos[i])];
        }
        counts := counts[b := counts[b].(count := counts[b].count + 1)];
      }
    }
    assert infos[..|infos|] == infos;
    if counts == map[] {
      return None;
    }
    HighestExists(counts, counts.Keys);
    var best :| best in counts && forall b :: b in counts ==> counts[b].count <= counts[best].count;
    r := Some(counts[best]);
  }

  lemma {:induction false} HighestExists(counts: map<string, Count>, keys: set<string>)
    requires keys <= counts.Keys && keys != {}
    ensures exists k :: k in keys && forall b :: b in keys ==> counts[b].count <= counts[k].count
    decreases keys
  {
    var k :| k in keys;
    var rest := keys - {k};
    if rest != {} {
      HighestExists(counts, rest);
      var h :| h in rest && forall b :: b in rest ==> counts[b].count <= counts[h].count;
      var top := if counts[k].count <= counts[h].count then h else k;
      assert forall b :: b in keys ==> b == k || b in rest;
      assert top in keys && forall b :: b in keys ==> counts[b].count <= counts[top].count;
    } else {
      assert keys == {k};
    }
  }

  /** The answers of the providers called so far. */
  function Answers(providers: seq<Response>, n: nat): seq<Info>
    requires n <= |providers| && forall i :: 0 <= i < n ==> providers[i].Ok?
  {
    seq(n, i requires 0 <= i < n => providers[i].value)
  }

  ghost predicate AllAnswer(providers: seq<Response>, n: nat) {
    n <= |providers| && forall i :: 0 <= i < n ==> providers[i].Ok?
  }

  /** The provider reports this balance. */
  predicate Reports(p: Response, balance: string) {
    p.Ok? && Usable(p.value) && p.value.balance.value == balance
  }

  /** Two of the first providers report this balance. */
  ghost predicate TwoReport(providers: seq<Response>, n: nat, balance: string)
    requires n <= |providers|
  {
    exists i, j :: 0 <= i < j < n && Reports(providers[i], balance) && Reports(providers[j], balance)
  }

  /** The loop stops after `n` calls with an agreement: two calls, or the first later call that brings one. */
  ghost predicate StopsAt(providers: seq<Response>, n: nat) {
    && 2 <= n && AllAnswer(providers, n) && Agree(Answers(providers, n))
    && (n > 2 ==> !Agree(Answers(providers, n - 1)))
  }

  /** One of the first two calls rejects, or a later call rejects before any agreement. */
  ghost predicate RejectsAt(providers: seq<Response>, n: nat) {
    && n < |providers| && providers[n].Err?
    && (n >= 2 ==> AllAnswer(providers, n) && !Agree(Answers(providers, n)))
  }

  /**
   What the loop may produce: the first answer with the only balance that two of
   the providers called report, or an error because there are too few providers, a
   call rejects before an agreement, or all answer and no two agree.
   */
  ghost predicate Outcome(providers: seq<Response>, r: Result<Info, string>, calls: nat) {
    match r
    case Ok(info) =>
      && StopsAt(providers, calls)
      && First(Answers(providers, calls), info) && Usable(info)
      && Votes(Answers(providers, calls), info.balance.value) == 2
      && forall b :: TwoReport(providers, calls, b) <==> b == info.balance.value
    case Err(error) =>
      || (|providers| < 2 && error == TOO_FEW)
      || (|providers| >= 2 && RejectsAt(providers, calls) && error == providers[calls].error)
      || (|providers| >= 2 && AllAnswer(providers, |providers|) && !Agree(Answers(providers, |providers|)) && error == NO_QUORUM)
  }

  lemma AnswersSnoc(providers: seq<Response>, n: nat)
    requires AllAnswer(providers, n + 1)
    ensures Answers(providers, n + 1) == Answers(providers, n) + [providers[n].value]
  {
  }

  /** Without an agreement a further answer gives at most one balance two votes. */
  lemma OneMoreVote(infos: seq<Info>, i: Info, a: string, b: string)
    requires !Agree(infos) && Votes(infos + [i], a) >= 2 && Votes(infos + [i], b) >= 2
    ensures a == b && Votes(infos + [i], a) == 2
  {
    VotesSnoc(infos, i, a);
    VotesSnoc(infos, i, b);
    assert Votes(infos, a) <= 1 && Votes(infos, b) <= 1;
  }

  lemma FewVotes(infos: seq<Info>)
    requires |infos| <= 1
    ensures !Agree(infos)
  {
    forall b ensures Votes(infos, b) < 2 {
      if infos != [] {
        assert Votes(infos[..|infos| - 1], b) == 0;
      }
    }
  }

  lemma {:induction false} OneVoteIsOneProvider(providers: seq<Response>, n: nat, b: string)
    requires AllAnswer(providers, n)
    ensures Votes(Answers(providers, n), b) >= 1 <==> exists i :: 0 <= i < n && Reports(providers[i], b)
    decreases n
  {
    if n > 0 {
      OneVoteIsOneProvider(providers, n - 1, b);
      AnswersSnoc(providers, n - 1);
      VotesSnoc(Answers(providers, n - 1), providers[n - 1].value, b);
    }
  }

  /** Two votes for a balance are two different providers that report it. */
  lemma {:induction false} TwoVotesAreTwoProviders(providers: seq<Response>, n: nat, b: string)
    requires AllAnswer(providers, n)
    ensures Votes(Answers(providers, n), b) >= 2 <==> TwoReport(providers, n, b)
    decreases n
  {
    if n > 0 {
      hide Votes, Reports, Answers;
      TwoVotesAreTwoProviders(providers, n - 1, b);
      OneVoteIsOneProvider(providers, n - 1, b);
      VotesGrow(providers, n - 1, b);
      if TwoReport(providers, n, b) {
        var i, j :| 0 <= i < j < n && Reports(providers[i], b) && Reports(providers[j], b);
        assert j < n - 1 ==> TwoReport(providers, n - 1, b);
      }
      if TwoReport(providers, n - 1, b) {
        var i, j :| 0 <= i < j < n - 1 && Reports(providers[i], b) && Reports(providers[j], b);
        assert TwoReport(providers, n, b);
      }
      if Reports(providers[n - 1], b) && exists i :: 0 <= i < n - 1 && Reports(providers[i], b) {
        var i :| 0 <= i < n - 1 && Reports(providers[i], b);
        assert TwoReport(providers, n, b);
      }
    } else {
      assert Answers(providers, 0) == [];
    }
  }

  lemma VotesGrow(providers: seq<Response>, n: nat, b: string)
    requires AllAnswer(providers, n + 1)
    ensures Votes(Answers(providers, n + 1), b) == Votes(Answers(providers, n), b) + if Reports(providers[n], b) then 1 else 0
  {
    AnswersSnoc(providers, n);
    VotesSnoc(Answers(providers, n), providers[n].value, b);
  }

  /** The provider loop. Of the first two calls, made together, the first rejection in time is the one that is thrown. */
  method GetAddressBalanceWithEvents(providers: seq<Response>) returns (r: Result<Info, string>, calls: nat)
    ensures Outcome(providers, r, calls)
  {
    hide Votes, First;
    calls := 0;
    if |providers| < 2 {
      return Err(TOO_FEW), 0;
    }
    if providers[0].Err? || providers[1].Err? {
      assert RejectsAt(providers, if providers[0].Err? then 0 else 1);
      calls :| calls < 2 && providers[calls].Err?;
      return Err(providers[calls].error), calls;
    }
    var infoFromProviders := [providers[0].value, providers[1].value];
    assert infoFromProviders == Answers(providers, 2);
    AnswersSnoc(providers, 1);
    FewVotes(Answers(providers, 1));
    var providerUsedIndex := 2;
    var mostCommon := GetMostCommonBalance(infoFromProviders);
    while (mostCommon.None? || mostCommon.value.count < 2) && providerUsedIndex < |providers|
      invariant 2 <= providerUsedIndex <= |providers| && AllAnswer(providers, providerUsedIndex)
      invariant infoFromProviders == Answers(providers, providerUsedIndex)
      invariant !Agree(Answers(providers, providerUsedIndex - 1))
      invariant mostCommon.None? ==> forall b :: Votes(infoFromProviders, b) == 0
      invariant mostCommon.Some? ==>
        && First(infoFromProviders, mostCommon.value.value) && Usable(mostCommon.value.value)
        && mostCommon.value.count == Votes(infoFromProviders, mostCommon.value.value.balance.value)
        && forall b :: Votes(infoFromProviders, b) <= mostCommon.value.count
      decreases |providers| - providerUsedIndex
    {
      assert !Agree(infoFromProviders);
      if providers[providerUsedIndex].Err? {
        return Err(providers[providerUsedIndex].error), providerUsedIndex;
      }
      AnswersSnoc(providers, providerUsedIndex);
      infoFromProviders := infoFromProviders + [providers[providerUsedIndex].value];
      providerUsedIndex := providerUsedIndex + 1;
      mostCommon := GetMostCommonBalance(infoFromProviders);
    }
    if mostCommon.Some? && mostCommon.value.count >= 2 {
      calls := providerUsedIndex;
      ghost var before := Answers(providers, calls - 1);
      AnswersSnoc(providers, calls - 1);
      forall b | Votes(infoFromProviders, b) >= 2
        ensures b == mostCommon.value.value.balance.value && Votes(infoFromProviders, b) == 2
      {
        OneMoreVote(before, providers[calls - 1].value, b, mostCommon.value.value.balance.value);
      }
      assert Votes(infoFromProviders, mostCommon.value.value.balance.value) >= 2;
      forall b ensures TwoReport(providers, calls, b) <==> b == mostCommon.value.value.balance.value {
        TwoVotesAreTwoProviders(providers, calls, b);
      }
      return Ok(mostCommon.value.value), calls;
    }
    r := Err(NO_QUORUM);
  }

  // ---------- the responses themselves ----------

  /** Two different providers give this balance, which is not the text that stands for a failure. */
  predicate SameBalance(providers: seq<Response>, i: int, j: int, balance: string) {
    && 0 <= i < j < |providers| && balance != "-1"
    && providers[i].Ok? && providers[i].value.balance == Some(balance)
    && providers[j].Ok? && providers[j].value.balance == Some(balance)
  }

  lemma AgreeIff(providers: seq<Response>, n: nat)
    requires AllAnswer(providers, n)
    ensures Agree(Answers(providers, n)) <==> exists i, j, b :: j < n && SameBalance(providers, i, j, b)
  {
    hide Answers, Votes;
    if Agree(Answers(providers, n)) {
      var b :| Votes(Answers(providers, n), b) >= 2;
      TwoVotesAreTwoProviders(providers, n, b);
      var i, j :| 0 <= i < j < n && Reports(providers[i], b) && Reports(providers[j], b);
      assert SameBalance(providers, i, j, b);
    }
    if i, j, b :| j < n && SameBalance(providers, i, j, b) {
      TwoVotesAreTwoProviders(providers, n, b);
      assert Reports(providers[i], b) && Reports(providers[j], b);
      assert TwoReport(providers, n, b);
    }
  }

  /**
   What comes back, on the responses alone. A balance is what the first of two
   providers answered that give the same balance; it is neither null nor "-1". After
   two calls or with the last call made, the second one is reached, and no two
   providers called before agree.
   */
  lemma BalanceIsSharedByTwo(providers: seq<Response>, info: Info, calls: nat)
    requires Outcome(providers, Ok(info), calls)
    ensures 2 <= calls <= |providers|
    ensures info.balance.Some? && info.balance != Some("-1")
    ensures exists i, j :: j < calls && SameBalance(providers, i, j, info.balance.value) && providers[i] == Ok(info)
              && forall k :: 0 <= k < i ==> providers[k].Ok? && providers[k].value.balance != info.balance
    ensures calls > 2 ==> forall i, j, b :: SameBalance(providers, i, j, b) ==> j >= calls - 1
  {
    hide Votes, Agree;
    var b := info.balance.value;
    var answers := Answers(providers, calls);
    var k :| IsFirst(answers, info, k);
    assert TwoReport(providers, calls, b);
    var i, j :| 0 <= i < j < calls && Reports(providers[i], b) && Reports(providers[j], b);
    assert answers[i].balance == Some(b) && answers[j].balance == Some(b);
    assert k <= i && SameBalance(providers, k, j, b) && providers[k] == Ok(info);
    assert forall m :: 0 <= m < k ==> providers[m].Ok? && providers[m].value == answers[m];
    if calls > 2 {
      AgreeIff(providers, calls - 1);
    }
  }

  /**
   When a balance comes back: iff two providers give the same one, and nobody up to the
   second of them rejects. Otherwise there are too few providers, or what is thrown is
   the rejection of a call before any agreement, or all have answered.
   */
  lemma BalanceComesBackIff(providers: seq<Response>, r: Result<Info, string>, calls: nat)
    requires Outcome(providers, r, calls)
    ensures r.Ok? <==> exists i, j, b :: SameBalance(providers, i, j, b) && forall k :: 0 <= k <= j ==> providers[k].Ok?
    ensures r.Err? ==>
      if |providers| < 2 then r.error == TOO_FEW
      else if forall i :: 0 <= i < |providers| ==> providers[i].Ok? then r.error == NO_QUORUM
      else
        && calls < |providers| && providers[calls] == Err(r.error)
        && (calls >= 2 ==> forall k :: 0 <= k < calls ==> providers[k].Ok?)
  {
    hide Votes, Agree, Answers, IsFirst, StopsAt;
    if r.Ok? {
      BalanceIsSharedByTwo(providers, r.value, calls);
      AnsweredBefore(providers, r.value, calls);
    } else if i, j, b :| SameBalance(providers, i, j, b) && forall k :: 0 <= k <= j ==> providers[k].Ok? {
      AgreeIff(providers, if RejectsAt(providers, calls) then calls else |providers|);
      assert false;
    }
  }

  lemma AnsweredBefore(providers: seq<Response>, info: Info, calls: nat)
    requires Outcome(providers, Ok(info), calls)
    ensures AllAnswer(providers, calls)
  {
  }

  /** When all of at least two providers answer, it throws iff no two of them give the same balance, null and "-1" aside. */
  lemma NoQuorumIff(providers: seq<Response>, r: Result<Info, string>, calls: nat)
    requires |providers| >= 2 && (forall i :: 0 <= i < |providers| ==> providers[i].Ok?) && Outcome(providers, r, calls)
    ensures r == Err(NO_QUORUM) <==> forall i, j, b :: !SameBalance(providers, i, j, b)
    ensures r.Err? ==> r == Err(NO_QUORUM)
  {
    hide Outcome;
    BalanceComesBackIff(providers, r, calls);
  }

  // ---------- what the quorum guarantees ----------

  predicate Correct(p: Response, truth: string) {
    p.Ok? && p.value.balance == Some(truth)
  }

  lemma {:induction false} WrongVotes(providers: seq<Response>, n: nat, truth: string, b: string, wrong: int)
    requires AllAnswer(providers, n) && b != truth
    requires forall i :: 0 <= i < n && i != wrong ==> Correct(providers[i], truth)
    ensures Votes(Answers(providers, n), b) <= if 0 <= wrong < n then 1 else 0
    decreases n
  {
    if n > 0 {
      WrongVotes(providers, n - 1, truth, b, wrong);
      AnswersSnoc(providers, n - 1);
      VotesSnoc(Answers(providers, n - 1), providers[n - 1].value, b);
    }
  }

  lemma {:induction false} TrueVotes(providers: seq<Response>, n: nat, truth: string, wrong: int)
    requires AllAnswer(providers, n) && truth != "-1"
    requires forall i :: 0 <= i < n && i != wrong ==> Correct(providers[i], truth)
    ensures Votes(Answers(providers, n), truth) >= n - if 0 <= wrong < n then 1 else 0
    decreases n
  {
    if n > 0 {
      TrueVotes(providers, n - 1, truth, wrong);
      AnswersSnoc(providers, n - 1);
      VotesSnoc(Answers(providers, n - 1), providers[n - 1].value, truth);
    }
  }

  /**
   With three answering providers of which at most one is wrong, any outcome that
   the loop may produce is the true balance, after at most three calls, and it
   never throws.
   */
  lemma OneWrongProviderIsOutvoted(providers: seq<Response>, truth: string, wrong: int, r: Result<Info, string>, calls: nat)
    requires |providers| >= 3 && AllAnswer(providers, 3) && truth != "-1"
    requires forall i :: 0 <= i < 3 && i != wrong ==> Correct(providers[i], truth)
    requires Outcome(providers, r, calls)
    ensures r.Ok? && r.value.balance == Some(truth) && calls <= 3
  {
    TrueVotes(providers, 3, truth, wrong);
    assert Agree(Answers(providers, 3));
    if r.Err? {
      var n := if RejectsAt(providers, calls) then calls else |providers|;
      AgreementStays(providers, 3, n);
    } else {
      if calls > 3 {
        AgreementStays(providers, 3, calls - 1);
      }
      if r.value.balance.value != truth {
        WrongVotes(providers, calls, truth, r.value.balance.value, wrong);
      }
    }
  }

  lemma {:induction false} AgreementStays(providers: seq<Response>, m: nat, n: nat)
    requires m <= n && AllAnswer(providers, n) && Agree(Answers(providers, m))
    ensures Agree(Answers(providers, n))
    decreases n - m
  {
    if m < n {
      AgreementStays(providers, m, n - 1);
      AnswersSnoc(providers, n - 1);
      var b :| Votes(Answers(providers, n - 1), b) >= 2;
      VotesSnoc(Answers(providers, n - 1), providers[n - 1].value, b);
      assert Votes(Answers(providers, n), b) >= 2;
    }
  }

  /**
   The result is determined by the providers. When it is a balance with its events, so
   is the number of calls, however ties are broken; when it is an error, only two rejections of the
   first two calls, made together, leave open which of them is thrown.
   */
  lemma OutcomesAgree(providers: seq<Response>, r: Result<Info, string>, calls: nat, s: Result<Info, string>, others: nat)
    requires Outcome(providers, r, calls) && Outcome(providers, s, others)
    ensures r.Ok? == s.Ok?
    ensures r.Ok? ==> calls == others && r.value == s.value
    ensures r.Err? && !(|providers| >= 2 && providers[0].Err? && providers[1].Err?) ==> r.error == s.error
  {
    hide Answers, Votes, Agree, IsFirst;
    if r.Ok? {
      AgreementExcludesFailure(providers, calls, others);
    }
    if s.Ok? {
      AgreementExcludesFailure(providers, others, calls);
    }
    if r.Ok? && s.Ok? {
      if calls < others {
        AgreementStays(providers, calls, others - 1);
      } else if others < calls {
        AgreementStays(providers, others, calls - 1);
      }
      assert calls == others;
      assert TwoReport(providers, calls, r.value.balance.value);
      OneFirst(Answers(providers, calls), r.value, s.value);
    }
  }

  lemma OneFirst(infos: seq<Info>, a: Info, b: Info)
    requires First(infos, a) && First(infos, b) && a.balance == b.balance
    ensures a == b
  {
    var i, j :| IsFirst(infos, a, i) && IsFirst(infos, b, j);
    assert i == j;
  }

  /** The outcomes exclude each other: when the loop can stop with an agreement, no way of failing is open. */
  lemma AgreementExcludesFailure(providers: seq<Response>, n: nat, m: nat)
    requires StopsAt(providers, n)
    ensures |providers| >= 2 && !RejectsAt(providers, m)
    ensures AllAnswer(providers, |providers|) ==> Agree(Answers(providers, |providers|))
  {
    if RejectsAt(providers, m) && m >= n {
      AgreementStays(providers, n, m);
    }
    if AllAnswer(providers, |providers|) {
      AgreementStays(providers, n, |providers|);
    }
  }
}
