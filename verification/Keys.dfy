/** String keys of partition logs and of acknowledgements, and the partition listing that parses
    them back. */
module Keys {
  import opened Options
  import opened Text
  import opened Sorting

  /** std::to_string(int) */
  function Numeral(p: int): string {
    if p < 0 then "-" + Decimal(-p) else Decimal(p)
  }

  /** StorageEngine::make_key and ReplicationManager::make_log_key */
  function LogKey(topic: string, partition: int): string {
    topic + "-" + Numeral(partition)
  }

  /** ReplicationManager::make_ack_key */
  function AckKey(topic: string, partition: int, offset: nat): string {
    LogKey(topic, partition) + ":" + Decimal(offset)
  }

  lemma NotInDigits(s: string, c: char)
    requires AllDigits(s) && !IsDigit(c)
    ensures c !in s
  {
  }

  /** The part of a key before its last dash. */
  function Stem(topic: string, partition: int): string {
    if partition < 0 then topic + "-" else topic
  }

  lemma KeyShape(topic: string, partition: int)
    ensures LogKey(topic, partition)
            == Stem(topic, partition) + ['-'] + Decimal(if partition < 0 then -partition else partition)
  {
  }

  /** Exactly which partitions share a key: none among non-negative partitions; a negative partition
      of a topic collides with the positive partition of the topic with a dash appended. */
  lemma LogKeyCollisions(t: string, p: int, u: string, q: int)
    ensures LogKey(t, p) == LogKey(u, q) <==>
            || (t == u && p == q)
            || (p < 0 && q == -p && u == t + "-")
            || (q < 0 && p == -q && t == u + "-")
  {
    var a, b := if p < 0 then -p else p, if q < 0 then -q else q;
    KeyShape(t, p);
    KeyShape(u, q);
    if LogKey(t, p) == LogKey(u, q) {
      NotInDigits(Decimal(a), '-');
      NotInDigits(Decimal(b), '-');
      SplitAtLast(Stem(t, p), Stem(u, q), '-', Decimal(a), Decimal(b));
      DecimalInjective(a, b);
      if p < 0 && q < 0 {
        assert t == Stem(t, p)[..|t|] && u == Stem(u, q)[..|u|];
      }
    }
  }

  /** Acknowledgements of different records never share a key. */
  lemma AckKeyInjective(t: string, p: int, o: nat, u: string, q: int, r: nat)
    requires p >= 0 && q >= 0
    requires AckKey(t, p, o) == AckKey(u, q, r)
    ensures t == u && p == q && o == r
  {
    NotInDigits(Decimal(o), ':');
    NotInDigits(Decimal(r), ':');
    SplitAtLast(LogKey(t, p), LogKey(u, q), ':', Decimal(o), Decimal(r));
    DecimalInjective(o, r);
    LogKeyCollisions(t, p, u, q);
  }

  // ----- parsing the partition number back out of a key

  predicate IsSpace(c: char) {
    c == ' ' || '\t' <= c <= '\r'
  }

  function SkipSpace(s: string): string {
    if |s| > 0 && IsSpace(s[0]) then SkipSpace(s[1..]) else s
  }

  function LeadingDigits(s: string): (r: string)
    ensures AllDigits(r)
  {
    if |s| > 0 && IsDigit(s[0]) then [s[0]] + LeadingDigits(s[1..]) else ""
  }

  /** std::stoi: None where it throws. Trailing characters are ignored. */
  function Stoi(s: string): Option<int> {
    var t := SkipSpace(s);
    var negative := |t| > 0 && t[0] == '-';
    var digits := LeadingDigits(if |t| > 0 && (t[0] == '-' || t[0] == '+') then t[1..] else t);
    var magnitude: int := FromDecimal(digits);
    var value := if negative then -magnitude else magnitude;
    if |digits| == 0 || value < -0x8000_0000 || value > 0x7fff_ffff then None else Some(value)
  }

  lemma {:induction false} DigitsLead(s: string)
    requires AllDigits(s)
    ensures LeadingDigits(s) == s
  {
    if |s| > 0 {
      assert IsDigit(s[0]);
      assert AllDigits(s[1..]) by {
        forall i | 0 <= i < |s[1..]| ensures IsDigit(s[1..][i]) { assert s[1..][i] == s[i + 1]; }
      }
      DigitsLead(s[1..]);
    }
  }

  lemma StoiInvertsDecimal(p: nat)
    requires p < 0x8000_0000
    ensures Stoi(Decimal(p)) == Some(p)
  {
    var s := Decimal(p);
    assert IsDigit(s[0]);
    DigitsLead(s);
    DecimalRoundTrip(p);
  }

  /** What one key contributes to the partition list of a topic. */
  lemma {:induction false} SkipsSpace(spaces: string, s: string)
    requires forall i :: 0 <= i < |spaces| ==> spaces[i] == ' ' || '\t' <= spaces[i] <= '\r'
    requires |s| > 0 && s[0] != ' ' && !('\t' <= s[0] <= '\r')
    ensures SkipSpace(spaces + s) == s
  {
    if |spaces| == 0 {
      assert spaces + s == s;
    } else {
      assert (spaces + s)[1..] == spaces[1..] + s;
      SkipsSpace(spaces[1..], s);
    }
  }

  lemma {:induction false} TakesDigits(digits: string, rest: string)
    requires AllDigits(digits) && (|rest| > 0 ==> !IsDigit(rest[0]))
    ensures LeadingDigits(digits + rest) == digits
  {
    if |digits| == 0 {
      assert digits + rest == rest;
    } else {
      assert (digits + rest)[1..] == digits[1..] + rest;
      TakesDigits(digits[1..], rest);
    }
  }

  lemma StoiNumber(sign: string, digits: string, rest: string)
    requires sign == "" || sign == "-" || sign == "+"
    requires |digits| > 0 && AllDigits(digits) && (|rest| > 0 ==> !IsDigit(rest[0]))
    ensures SkipSpace(sign + (digits + rest)) == sign + (digits + rest)
    ensures var n: int := FromDecimal(digits); var value := if sign == "-" then -n else n;
            Stoi(sign + (digits + rest)) == if -0x8000_0000 <= value <= 0x7fff_ffff then Some(value) else None
  {
    var number := sign + (digits + rest);
    TakesDigits(digits, rest);
    assert IsDigit(digits[0]);
    if sign == "" {
      assert number == digits + rest;
    } else {
      assert number[0] == sign[0] && number[1..] == digits + rest;
    }
  }

  /** std::stoi: white space, a sign and digits are read, the rest is ignored, and what does not fit 32 bits is
      refused. */
  lemma StoiReads(spaces: string, sign: string, digits: string, rest: string)
    requires forall i :: 0 <= i < |spaces| ==> spaces[i] == ' ' || '\t' <= spaces[i] <= '\r'
    requires sign == "" || sign == "-" || sign == "+"
    requires |digits| > 0 && AllDigits(digits) && (|rest| > 0 ==> !IsDigit(rest[0]))
    ensures var n: int := FromDecimal(digits); var value := if sign == "-" then -n else n;
            Stoi(spaces + (sign + (digits + rest)))
            == if -0x8000_0000 <= value <= 0x7fff_ffff then Some(value) else None
  {
    var number := sign + (digits + rest);
    StoiNumber(sign, digits, rest);
    StartsNumber(sign, digits, rest);
    SkipsSpace(spaces, number);
    SameNumber(spaces + number, number);
  }

  lemma SameNumber(a: string, b: string)
    requires SkipSpace(a) == SkipSpace(b)
    ensures Stoi(a) == Stoi(b)
  {
  }

  lemma StartsNumber(sign: string, digits: string, rest: string)
    requires sign == "" || sign == "-" || sign == "+"
    requires |digits| > 0 && AllDigits(digits)
    ensures var number := sign + (digits + rest);
            |number| > 0 && number[0] != ' ' && !('\t' <= number[0] <= '\r')
  {
    assert IsDigit(digits[0]);
    assert (sign + (digits + rest))[0] == if sign == "" then digits[0] else sign[0];
  }

  function Contribution(key: string, topic: string): Option<int> {
    var prefix := topic + "-";
    if prefix <= key then Stoi(key[|prefix|..]) else None
  }

  function Contributions(keys: seq<string>, topic: string): seq<int> {
    if |keys| == 0 then []
    else
      var c := Contribution(keys[|keys| - 1], topic);
      Contributions(keys[..|keys| - 1], topic) + if c.Some? then [c.value] else []
  }

  /** StorageEngine::partitions_for_topic over the keys in any iteration order. */
  method PartitionsForTopic(keys: seq<string>, topic: string) returns (r: seq<int>)
    ensures (forall i, j :: 0 <= i < j < |r| ==> r[i] <= r[j]) && multiset(r) == multiset(Contributions(keys, topic))
  {
    var partitions: seq<int> := [];
    var prefix := topic + "-";
    var i := 0;
    while i < |keys|
      invariant 0 <= i <= |keys|
      invariant partitions == Contributions(keys[..i], topic)
    {
      if prefix <= keys[i] {
        var n := Stoi(keys[i][|prefix|..]);
        if n.Some? {
          partitions := partitions + [n.value];
        }
      }
      assert keys[..i + 1][..i] == keys[..i];
      i := i + 1;
    }
    assert keys[..i] == keys;
    r := Sort(partitions);
  }

  // ----- when the listing is right

  datatype LogId = LogId(topic: string, partition: nat)

  ghost predicate Int32Partitions(logs: seq<LogId>) {
    forall i :: 0 <= i < |logs| ==> logs[i].partition < 0x8000_0000
  }

  function KeysOf(logs: seq<LogId>): seq<string> {
    if |logs| == 0 then []
    else KeysOf(logs[..|logs| - 1]) + [LogKey(logs[|logs| - 1].topic, logs[|logs| - 1].partition)]
  }

  /** The partitions of a topic. */
  function Own(logs: seq<LogId>, topic: string): seq<int> {
    if |logs| == 0 then []
    else Own(logs[..|logs| - 1], topic) + if logs[|logs| - 1].topic == topic then [logs[|logs| - 1].partition] else []
  }

  /** A log of another topic that the listing mistakes for a partition of this one: its topic is
      this topic, a dash, and text that reads as a number. */
  predicate Mistaken(l: LogId, topic: string) {
    && l.topic != topic
    && topic + "-" <= l.topic
    && Stoi(l.topic[|topic| + 1..] + "-" + Decimal(l.partition)).Some?
  }

  ghost predicate NoneMistaken(logs: seq<LogId>, topic: string) {
    forall i :: 0 <= i < |logs| ==> !Mistaken(logs[i], topic)
  }

  lemma ContributionOf(l: LogId, topic: string)
    requires l.partition < 0x8000_0000
    ensures l.topic == topic ==> Contribution(LogKey(l.topic, l.partition), topic) == Some(l.partition)
    ensures l.topic != topic ==> (Contribution(LogKey(l.topic, l.partition), topic).Some? <==> Mistaken(l, topic))
  {
    var key, prefix, digits := LogKey(l.topic, l.partition), topic + "-", Decimal(l.partition);
    if l.topic == topic {
      assert key[|prefix|..] == digits;
      StoiInvertsDecimal(l.partition);
    } else if prefix <= l.topic {
      assert prefix <= key;
      assert key[|prefix|..] == l.topic[|topic| + 1..] + "-" + digits;
    } else if prefix <= key {
      PrefixOfKey(l, topic);
      assert false;
    }
  }

  lemma DigitsAfterDash(l: LogId)
    ensures var key := LogKey(l.topic, l.partition);
            forall i :: |l.topic| < i < |key| ==> IsDigit(key[i])
  {
    var key, digits := LogKey(l.topic, l.partition), Decimal(l.partition);
    forall i | |l.topic| < i < |key| ensures IsDigit(key[i]) {
      assert key[i] == digits[i - |l.topic| - 1];
    }
  }

  lemma PrefixOfKey(l: LogId, topic: string)
    requires topic + "-" <= LogKey(l.topic, l.partition)
    ensures l.topic == topic || topic + "-" <= l.topic
  {
    var key, prefix := LogKey(l.topic, l.partition), topic + "-";
    assert key[|topic|] == prefix[|topic|] == '-';
    DigitsAfterDash(l);
    assert |topic| <= |l.topic|;
    assert topic == key[..|topic|] == l.topic[..|topic|];
    if |topic| < |l.topic| {
      assert prefix == key[..|prefix|] == l.topic[..|prefix|];
    }
  }

  /** What mistaken logs add to the listing. */
  function Mistakes(logs: seq<LogId>, topic: string): seq<int> {
    if |logs| == 0 then []
    else
      var l := logs[|logs| - 1];
      var c := Contribution(LogKey(l.topic, l.partition), topic);
      Mistakes(logs[..|logs| - 1], topic) + if l.topic != topic && c.Some? then [c.value] else []
  }

  /** The listing holds the topic's partitions plus one number per mistaken log. */
  lemma {:induction false} ListingCounts(logs: seq<LogId>, topic: string)
    requires Int32Partitions(logs)
    ensures multiset(Contributions(KeysOf(logs), topic)) == multiset(Own(logs, topic)) + multiset(Mistakes(logs, topic))
  {
    if |logs| > 0 {
      var front, last := logs[..|logs| - 1], logs[|logs| - 1];
      ListingCounts(front, topic);
      ContributionOf(last, topic);
      var keys := KeysOf(logs);
      assert keys[..|keys| - 1] == KeysOf(front);
    }
  }

  lemma {:induction false} NoMistakes(logs: seq<LogId>, topic: string)
    requires Int32Partitions(logs)
    ensures Mistakes(logs, topic) == [] <==> NoneMistaken(logs, topic)
  {
    if |logs| > 0 {
      var front, last := logs[..|logs| - 1], logs[|logs| - 1];
      assert logs == front + [last];
      NoMistakes(front, topic);
      NoMistakesSnoc(front, last, topic);
    }
  }

  lemma NoMistakesSnoc(front: seq<LogId>, last: LogId, topic: string)
    requires last.partition < 0x8000_0000
    requires Mistakes(front, topic) == [] <==> NoneMistaken(front, topic)
    ensures Mistakes(front + [last], topic) == [] <==> NoneMistaken(front + [last], topic)
  {
    MistakesSnoc(front, last, topic);
    NoneMistakenSnoc(front, last, topic);
  }

  lemma MistakesSnoc(front: seq<LogId>, last: LogId, topic: string)
    requires last.partition < 0x8000_0000
    ensures Mistakes(front + [last], topic) == [] <==> Mistakes(front, topic) == [] && !Mistaken(last, topic)
  {
    ContributionOf(last, topic);
    assert (front + [last])[..|front|] == front;
  }

  lemma NoneMistakenSnoc(front: seq<LogId>, last: LogId, topic: string)
    ensures NoneMistaken(front + [last], topic) <==> NoneMistaken(front, topic) && !Mistaken(last, topic)
  {
    var logs := front + [last];
    assert logs[|front|] == last && forall i :: 0 <= i < |front| ==> logs[i] == front[i];
  }

  /** The partition list of a topic is right if and only if no log of another topic reads as one of
      its partitions. */
  lemma ListingExact(logs: seq<LogId>, topic: string)
    requires Int32Partitions(logs)
    ensures multiset(Contributions(KeysOf(logs), topic)) == multiset(Own(logs, topic)) <==>
            NoneMistaken(logs, topic)
  {
    ListingCounts(logs, topic);
    NoMistakes(logs, topic);
    var own, extra := multiset(Own(logs, topic)), multiset(Mistakes(logs, topic));
    assert |own + extra| == |own| + |extra|;
    assert |extra| == |Mistakes(logs, topic)|;
  }

  /** Topics a and a-1: the only partition of topic a-1, number 2, is also listed as partition 1 of a. */
  lemma MistakenExample()
    ensures Mistaken(LogId("a-1", 2), "a")
    ensures Contribution(LogKey("a-1", 2), "a") == Some(1)
  {
    var rest := "1-" + Decimal(2);
    assert LogKey("a-1", 2) == "a-" + rest;
    assert LogKey("a-1", 2)[2..] == rest;
    assert "a-1"[2..] + "-" + Decimal(2) == rest;
    ReadsOne(rest);
  }

  lemma ReadsOne(s: string)
    requires |s| >= 2 && s[0] == '1' && s[1] == '-'
    ensures Stoi(s) == Some(1)
  {
    assert LeadingDigits(s[1..]) == "";
    assert LeadingDigits(s) == ['1'];
    assert ['1'][..0] == [];
    assert FromDecimal(['1']) == 1;
  }
}
