/** What the client reads out of a thread's message listing: the history,
    oldest first, and the answer, taken from the newest message. The listing
    order of the remote is not trusted; both go by `createdAt`. */
module Messages {
  import opened Remote
  import Citations

  ghost predicate Ascending(ms: seq<Message>) {
    forall i, j :: 0 <= i < j < |ms| ==> ms[i].createdAt <= ms[j].createdAt
  }

  /** The messages of `ms` created at time `t`, in the order of `ms`. */
  function CreatedAt(ms: seq<Message>, t: int): seq<Message> {
    if |ms| == 0 then []
    else (if ms[0].createdAt == t then [ms[0]] else []) + CreatedAt(ms[1..], t)
  }

  /** Places `m` before the first message that is not older than it. */
  function Insert(m: Message, sorted: seq<Message>): (r: seq<Message>)
    requires Ascending(sorted)
    ensures Ascending(r)
    ensures multiset(r) == multiset(sorted) + multiset{m}
  {
    if |sorted| == 0 || m.createdAt <= sorted[0].createdAt then [m] + sorted
    else
      var rest := Insert(m, sorted[1..]);
      InsertAfterHead(m, sorted, rest);
      [sorted[0]] + rest
  }

  lemma InsertAfterHead(m: Message, sorted: seq<Message>, rest: seq<Message>)
    requires Ascending(sorted) && |sorted| > 0 && sorted[0].createdAt < m.createdAt
    requires Ascending(rest) && multiset(rest) == multiset(sorted[1..]) + multiset{m}
    ensures Ascending([sorted[0]] + rest)
    ensures multiset([sorted[0]] + rest) == multiset(sorted) + multiset{m}
  {
    assert sorted == [sorted[0]] + sorted[1..];
    forall j | 0 <= j < |rest| ensures sorted[0].createdAt <= rest[j].createdAt {
      assert rest[j] in multiset(rest);
      if rest[j] != m {
        assert rest[j] in multiset(sorted[1..]);
        var i :| 0 <= i < |sorted[1..]| && sorted[1..][i] == rest[j];
        assert sorted[i + 1] == rest[j];
      }
    }
  }

  /** The listing sorted by ascending `createdAt`, stably, as Stream.sorted does. */
  function SortByCreatedAt(ms: seq<Message>): (r: seq<Message>)
    ensures Ascending(r)
    ensures multiset(r) == multiset(ms)
  {
    if |ms| == 0 then []
    else
      assert multiset(ms) == multiset{ms[0]} + multiset(ms[1..]) by {
        assert ms == [ms[0]] + ms[1..];
      }
      Insert(ms[0], SortByCreatedAt(ms[1..]))
  }

  lemma {:induction false} CreatedAtCons(m: Message, ms: seq<Message>, t: int)
    ensures CreatedAt([m] + ms, t) == (if m.createdAt == t then [m] else []) + CreatedAt(ms, t)
  {
    assert ([m] + ms)[1..] == ms;
  }

  lemma {:induction false} InsertCreatedAt(m: Message, sorted: seq<Message>, t: int)
    requires Ascending(sorted)
    ensures CreatedAt(Insert(m, sorted), t) == (if m.createdAt == t then [m] else []) + CreatedAt(sorted, t)
    decreases |sorted|
  {
    if |sorted| == 0 || m.createdAt <= sorted[0].createdAt {
      CreatedAtCons(m, sorted, t);
    } else {
      var rest := sorted[1..];
      InsertCreatedAt(m, rest, t);
      assert Insert(m, sorted) == [sorted[0]] + Insert(m, rest);
      ConsBeforeNewer(sorted[0], m, Insert(m, rest), rest, t);
      assert sorted == [sorted[0]] + rest;
    }
  }

  /** Putting a message older than `m` in front of both sides keeps `m` first
      among the messages at time `t`: at most one of the two is at `t`. */
  lemma ConsBeforeNewer(h: Message, m: Message, inserted: seq<Message>, rest: seq<Message>, t: int)
    requires h.createdAt < m.createdAt
    requires CreatedAt(inserted, t) == (if m.createdAt == t then [m] else []) + CreatedAt(rest, t)
    ensures CreatedAt([h] + inserted, t) == (if m.createdAt == t then [m] else []) + CreatedAt([h] + rest, t)
  {
    CreatedAtCons(h, inserted, t);
    CreatedAtCons(h, rest, t);
    var head := if h.createdAt == t then [h] else [];
    var added := if m.createdAt == t then [m] else [];
    var later := CreatedAt(rest, t);
    if head == [] {
      assert head + (added + later) == added + later && head + later == later;
    } else {
      assert added == [];
      assert added + later == later && added + (head + later) == head + later;
    }
  }

  /** Sorting keeps messages with equal `createdAt` in listing order. */
  lemma {:induction false} SortIsStable(ms: seq<Message>, t: int)
    ensures CreatedAt(SortByCreatedAt(ms), t) == CreatedAt(ms, t)
    decreases |ms|
  {
    if |ms| > 0 {
      InsertCreatedAt(ms[0], SortByCreatedAt(ms[1..]), t);
      SortIsStable(ms[1..], t);
      CreatedAtCons(ms[0], ms[1..], t);
      assert ms == [ms[0]] + ms[1..];
    }
  }

  lemma {:induction false} CreatedAtMember(ms: seq<Message>, t: int, i: nat)
    requires i < |ms| && ms[i].createdAt == t
    ensures |CreatedAt(ms, t)| > 0
    decreases |ms|
  {
    if i > 0 {
      CreatedAtMember(ms[1..], t, i - 1);
    }
  }

  lemma {:induction false} CreatedAtHead(ms: seq<Message>, t: int)
    requires |CreatedAt(ms, t)| > 0
    ensures exists i :: 0 <= i < |ms| && ms[i].createdAt == t
    decreases |ms|
  {
    if ms[0].createdAt != t {
      CreatedAtHead(ms[1..], t);
      var i :| 0 <= i < |ms[1..]| && ms[1..][i].createdAt == t;
      assert ms[i + 1].createdAt == t;
    }
  }

  lemma AscendingHeadsAgree(a: seq<Message>, b: seq<Message>)
    requires Ascending(a) && Ascending(b) && |a| > 0 && |b| > 0
    requires forall t :: CreatedAt(a, t) == CreatedAt(b, t)
    ensures a[0] == b[0]
  {
    var ta, tb := a[0].createdAt, b[0].createdAt;
    assert CreatedAt(a, ta) == CreatedAt(b, ta);
    assert CreatedAt(a, tb) == CreatedAt(b, tb);
    HeadTimeBound(a, b, ta);
    HeadTimeBound(b, a, tb);
    HeadsOfSameTime(a, b);
  }

  /** In an ascending `b`, a time `a` starts with is no earlier than `b`'s first. */
  lemma HeadTimeBound(a: seq<Message>, b: seq<Message>, t: int)
    requires Ascending(b) && |a| > 0 && |b| > 0 && t == a[0].createdAt
    requires CreatedAt(a, t) == CreatedAt(b, t)
    ensures b[0].createdAt <= t
  {
    CreatedAtMember(a, t, 0);
    CreatedAtHead(b, t);
    var i :| 0 <= i < |b| && b[i].createdAt == t;
    assert i == 0 || b[0].createdAt <= b[i].createdAt;
  }

  lemma HeadsOfSameTime(a: seq<Message>, b: seq<Message>)
    requires |a| > 0 && |b| > 0 && a[0].createdAt == b[0].createdAt
    requires CreatedAt(a, a[0].createdAt) == CreatedAt(b, a[0].createdAt)
    ensures a[0] == b[0]
  {
    var t0 := a[0].createdAt;
    CreatedAtCons(a[0], a[1..], t0);
    CreatedAtCons(b[0], b[1..], t0);
    assert a == [a[0]] + a[1..] && b == [b[0]] + b[1..];
    assert a[0] == CreatedAt(a, t0)[0];
    assert b[0] == CreatedAt(b, t0)[0];
  }

  lemma CreatedAtTails(a: seq<Message>, b: seq<Message>, t: int)
    requires |a| > 0 && |b| > 0 && a[0] == b[0]
    requires CreatedAt(a, t) == CreatedAt(b, t)
    ensures CreatedAt(a[1..], t) == CreatedAt(b[1..], t)
  {
    CreatedAtCons(a[0], a[1..], t);
    CreatedAtCons(b[0], b[1..], t);
    assert a == [a[0]] + a[1..] && b == [b[0]] + b[1..];
    var h := if a[0].createdAt == t then [a[0]] else [];
    assert CreatedAt(a[1..], t) == (h + CreatedAt(a[1..], t))[|h|..];
    assert CreatedAt(b[1..], t) == (h + CreatedAt(b[1..], t))[|h|..];
  }

  /** The ascending, tie-stable order of a listing is unique: any two ascending
      sequences that agree on the messages of every timestamp are equal. */
  lemma {:induction false} AscendingOrderIsUnique(a: seq<Message>, b: seq<Message>)
    requires Ascending(a) && Ascending(b)
    requires forall t :: CreatedAt(a, t) == CreatedAt(b, t)
    ensures a == b
    decreases |a| + |b|
  {
    if |a| > 0 || |b| > 0 {
      if |b| > 0 {
        NonEmptyLikeNonEmpty(a, b);
      } else {
        NonEmptyLikeNonEmpty(b, a);
      }
      TailsAgree(a, b);
      AscendingOrderIsUnique(a[1..], b[1..]);
      assert a == [a[0]] + a[1..] && b == [b[0]] + b[1..];
    }
  }

  /** A sequence that agrees per timestamp with a non-empty one is non-empty. */
  lemma NonEmptyLikeNonEmpty(a: seq<Message>, b: seq<Message>)
    requires |b| > 0
    requires forall t :: CreatedAt(a, t) == CreatedAt(b, t)
    ensures |a| > 0
  {
    CreatedAtMember(b, b[0].createdAt, 0);
    assert CreatedAt(a, b[0].createdAt) != [];
  }

  /** Two non-empty ascending sequences that agree per timestamp have the same
      head, and their tails are ascending and agree per timestamp. */
  lemma TailsAgree(a: seq<Message>, b: seq<Message>)
    requires Ascending(a) && Ascending(b) && |a| > 0 && |b| > 0
    requires forall t :: CreatedAt(a, t) == CreatedAt(b, t)
    ensures a[0] == b[0] && Ascending(a[1..]) && Ascending(b[1..])
    ensures forall t :: CreatedAt(a[1..], t) == CreatedAt(b[1..], t)
  {
    AscendingHeadsAgree(a, b);
    forall t ensures CreatedAt(a[1..], t) == CreatedAt(b[1..], t) {
      CreatedAtTails(a, b, t);
    }
  }

  /** The sort is the one ascending order that keeps ties in listing order. */
  lemma SortIsTheStableOrder(ms: seq<Message>, order: seq<Message>)
    requires Ascending(order)
    requires forall t :: CreatedAt(order, t) == CreatedAt(ms, t)
    ensures SortByCreatedAt(ms) == order
  {
    forall t ensures CreatedAt(SortByCreatedAt(ms), t) == CreatedAt(order, t) {
      SortIsStable(ms, t);
    }
    AscendingOrderIsUnique(SortByCreatedAt(ms), order);
  }

  /** The text of a message's first content block; fails as the client does
      when the block is missing or is not text. */
  function FirstText(m: Message): Result<string> {
    if |m.content| > 0 && m.content[0].Text? then Ok(m.content[0].value) else Err(NoTextContent)
  }

  /** The first-block texts of `ms`, in order; fails if any message has none. */
  function Texts(ms: seq<Message>): (r: Result<seq<string>>)
    ensures r.Ok? <==> forall i :: 0 <= i < |ms| ==> FirstText(ms[i]).Ok?
    ensures r.Ok? ==> |r.value| == |ms| && forall i :: 0 <= i < |ms| ==> FirstText(ms[i]) == Ok(r.value[i])
    ensures r.Err? ==> r.error == NoTextContent
  {
    if |ms| == 0 then Ok([])
    else match FirstText(ms[0])
      case Err(e) => Err(e)
      case Ok(t) =>
        match Texts(ms[1..])
        case Err(e) => Err(e)
        case Ok(ts) => Ok([t] + ts)
  }

  /** The conversation history of a listing: first-block texts, oldest first. */
  function History(ms: seq<Message>): Result<seq<string>> {
    Texts(SortByCreatedAt(ms))
  }

  /** The history has one text per listed message, in the order of an ascending,
      tie-stable rearrangement of the listing. */
  lemma HistoryIsChronological(ms: seq<Message>)
    ensures History(ms).Ok? <==> forall m :: m in ms ==> FirstText(m).Ok?
    ensures History(ms).Ok? ==> exists order: seq<Message> ::
      Ascending(order) && multiset(order) == multiset(ms) &&
      (forall t :: CreatedAt(order, t) == CreatedAt(ms, t)) &&
      |History(ms).value| == |order| &&
      forall i :: 0 <= i < |order| ==> FirstText(order[i]) == Ok(History(ms).value[i])
  {
    var order := SortByCreatedAt(ms);
    forall t ensures CreatedAt(order, t) == CreatedAt(ms, t) {
      SortIsStable(ms, t);
    }
    assert forall m :: m in ms <==> m in order by {
      forall m ensures m in ms <==> m in order {
        assert m in ms <==> m in multiset(ms);
        assert m in order <==> m in multiset(order);
      }
    }
  }

  /** `ms[k]` is the newest message, and the first so in listing order. */
  ghost predicate Newest(ms: seq<Message>, k: nat) {
    k < |ms| &&
    (forall j :: 0 <= j < |ms| ==> ms[j].createdAt <= ms[k].createdAt) &&
    (forall j :: 0 <= j < k ==> ms[j].createdAt < ms[k].createdAt)
  }

  /** The position of the message that sorting by descending `createdAt`
      (stably) and taking the first yields. */
  function LatestIndex(ms: seq<Message>): (k: nat)
    requires |ms| > 0
    ensures Newest(ms, k)
  {
    if |ms| == 1 then 0
    else
      var k := 1 + LatestIndex(ms[1..]);
      if ms[0].createdAt >= ms[k].createdAt then 0 else k
  }

  lemma NewestIsUnique(ms: seq<Message>, k: nat, k': nat)
    requires Newest(ms, k) && Newest(ms, k')
    ensures k == k'
  {
    assert ms[k].createdAt == ms[k'].createdAt;
  }

  /** The answer: the newest message's first text with its citations removed. */
  function LatestAnswer(ms: seq<Message>): (r: Result<string>)
    ensures |ms| == 0 <==> r == Err(NoMessages)
    ensures r.Ok? ==> Citations.CitationFree(r.value)
    ensures r.Err? ==> r.error == NoMessages || r.error == NoTextContent
  {
    if |ms| == 0 then Err(NoMessages)
    else match FirstText(ms[LatestIndex(ms)])
      case Err(e) => Err(e)
      case Ok(t) => Citations.StripLeavesNoCitation(t); Ok(Citations.StripCitations(t))
  }

  /** The answer comes from the newest message, whatever the listing order,
      and fails only when there is no message or the newest has no text. */
  lemma AnswerIsNewestMessage(ms: seq<Message>, k: nat)
    requires Newest(ms, k)
    ensures LatestAnswer(ms) ==
      match FirstText(ms[k])
      case Ok(t) => Ok(Citations.StripCitations(t))
      case Err(e) => Err(e)
  {
    NewestIsUnique(ms, k, LatestIndex(ms));
  }

  lemma {:induction false} DistinctTimesPickSameNewest(ms: seq<Message>, ms': seq<Message>, k: nat, k': nat)
    requires multiset(ms) == multiset(ms')
    requires forall i, j :: 0 <= i < j < |ms| ==> ms[i].createdAt != ms[j].createdAt
    requires Newest(ms, k) && Newest(ms', k')
    ensures ms[k] == ms'[k']
  {
    assert ms[k] in multiset(ms');
    assert ms'[k'] in multiset(ms);
    var i :| 0 <= i < |ms| && ms[i] == ms'[k'];
    var i' :| 0 <= i' < |ms'| && ms'[i'] == ms[k];
    assert ms[i].createdAt <= ms[k].createdAt;
    assert ms'[i'].createdAt <= ms'[k'].createdAt;
    assert i == k;
  }

  /** With distinct timestamps the answer does not depend on the listing order. */
  lemma AnswerIgnoresListingOrder(ms: seq<Message>, ms': seq<Message>)
    requires multiset(ms) == multiset(ms')
    requires forall i, j :: 0 <= i < j < |ms| ==> ms[i].createdAt != ms[j].createdAt
    ensures LatestAnswer(ms) == LatestAnswer(ms')
  {
    if |ms| > 0 {
      assert |ms'| == |multiset(ms')| == |multiset(ms)| == |ms|;
      DistinctTimesPickSameNewest(ms, ms', LatestIndex(ms), LatestIndex(ms'));
    } else {
      assert |ms'| == |multiset(ms')| == 0;
    }
  }

  lemma TextsOfThree(a: Message, b: Message, c: Message, x: string, y: string, z: string)
    requires FirstText(a) == Ok(x) && FirstText(b) == Ok(y) && FirstText(c) == Ok(z)
    ensures Texts([a, b, c]).Ok? && Texts([a, b, c]).value == [x, y, z]
  {
    assert [a, b, c][1..] == [b, c] && [b, c][1..] == [c] && [c][1..] == [];
    assert Texts([c]).value == [z];
    assert Texts([b, c]).value == [y, z];
  }

  lemma SortsThree(a: Message, b: Message, c: Message)
    requires b.createdAt < c.createdAt < a.createdAt
    ensures SortByCreatedAt([a, b, c]) == [b, c, a]
  {
    var ms, sorted := [a, b, c], [b, c, a];
    forall t ensures CreatedAt(sorted, t) == CreatedAt(ms, t) {
      CreatedAtCons(b, [c, a], t);
      CreatedAtCons(c, [a], t);
      CreatedAtCons(a, [], t);
      CreatedAtCons(a, [b, c], t);
      CreatedAtCons(b, [c], t);
      CreatedAtCons(c, [], t);
    }
    SortIsTheStableOrder(ms, sorted);
  }

  /** A listing in the order t3, t1, t2 (with t1 < t2 < t3) gives the history
      in the order t1, t2, t3. */
  lemma HistoryOfListedOutOfOrder(m3: Message, m1: Message, m2: Message, x: string, y: string, z: string)
    requires m1.createdAt < m2.createdAt < m3.createdAt
    requires FirstText(m3) == Ok(x) && FirstText(m1) == Ok(y) && FirstText(m2) == Ok(z)
    ensures History([m3, m1, m2]).Ok? && History([m3, m1, m2]).value == [y, z, x]
  {
    SortsThree(m3, m1, m2);
    TextsOfThree(m1, m2, m3, y, z, x);
  }

  /** The answer to that listing comes from the newest message, listed first. */
  lemma AnswerOfListedOutOfOrder(x: string, y: string, z: string)
    requires Citations.Open !in x
    ensures var ms := [Message(3, [Text(x)]), Message(1, [Text(y)]), Message(2, [Text(z)])];
      LatestAnswer(ms).Ok? && LatestAnswer(ms).value == x
  {
    var ms := [Message(3, [Text(x)]), Message(1, [Text(y)]), Message(2, [Text(z)])];
    assert Newest(ms, 0);
    AnswerIsNewestMessage(ms, 0);
    Citations.StripPlainPrefix(x, []);
    assert x + [] == x;
  }
}
