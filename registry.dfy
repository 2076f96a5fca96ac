/**
 * The token registry of the lexer module: a JavaScript object used as a
 * dictionary from token names to token types. Such an object remembers the
 * order in which its keys were first assigned; `Object.values` lists the
 * values in that order, and assigning to a key that is already present
 * replaces its value without moving it.
 */
module Registry {
  import opened Wrappers
  import opened TokenTypes

  /** One property of the object, or one assignment to it: a key and a token. */
  datatype Entry = Entry(key: string, value: TokenType)

  /** The state of the object: its properties in the order their keys were first assigned. */
  type OrderedMap = seq<Entry>

  /** The empty object literal `{}`. */
  const Empty: OrderedMap := []

  /** `obj[k]`: the token stored under `k`, or nothing (`undefined`). */
  function Get(m: OrderedMap, k: string): Option<TokenType> {
    if m == [] then None
    else if m[0].key == k then Some(m[0].value)
    else Get(m[1..], k)
  }

  /** `k in obj`. */
  predicate Has(m: OrderedMap, k: string) {
    Get(m, k).Some?
  }

  /** No key is listed twice. */
  ghost predicate DistinctKeys(m: OrderedMap) {
    forall i, j :: 0 <= i < j < |m| ==> m[i].key != m[j].key
  }

  /**
   * Every token is stored under its own name, as `tokens[token.name] = token`
   * does; for a list of assignments, every assignment is of that form.
   */
  ghost predicate KeyedByName(m: seq<Entry>) {
    forall i :: 0 <= i < |m| ==> m[i].value.config.name == m[i].key
  }

  /** The names of a list of tokens. */
  ghost function Names(ts: seq<TokenType>): set<string> {
    set t | t in ts :: t.config.name
  }

  /** The keys a list of assignments writes to. */
  ghost function AssignedKeys(log: seq<Entry>): set<string> {
    set e | e in log :: e.key
  }

  /** `log[i]` is the last assignment of `log` to its key, so no later one overwrites it. */
  ghost predicate LastToItsKey(log: seq<Entry>, i: int)
    requires 0 <= i < |log|
  {
    forall j :: i < j < |log| ==> log[j].key != log[i].key
  }

  /**
   * The assignment `obj[k] = v`: `k` now holds `v` and no other key
   * changes; every key already present keeps its position, and a new key
   * goes last.
   */
  function Assign(m: OrderedMap, k: string, v: TokenType): (r: OrderedMap)
    ensures forall k' :: Get(r, k') == if k' == k then Some(v) else Get(m, k')
    ensures |r| == if Has(m, k) then |m| else |m| + 1
    ensures forall i :: 0 <= i < |m| ==> r[i].key == m[i].key
    ensures KeyedByName(m) && v.config.name == k ==> KeyedByName(r)
  {
    if m == [] then [Entry(k, v)]
    else if m[0].key == k then [Entry(k, v)] + m[1..]
    else [m[0]] + Assign(m[1..], k, v)
  }

  /** `Object.values(obj)`: the stored tokens in the insertion order of their keys. */
  function Values(m: OrderedMap): (vs: seq<TokenType>)
    ensures |vs| == |m|
  {
    seq(|m|, i requires 0 <= i < |m| => m[i].value)
  }

  /** The key at position `i` finds the token at position `i`, when no key is listed twice. */
  lemma {:induction false} GetFindsEntry(m: OrderedMap, i: int)
    requires DistinctKeys(m) && 0 <= i < |m|
    ensures Get(m, m[i].key) == Some(m[i].value)
  {
    if i > 0 {
      assert m[0].key != m[i].key;
      GetFindsEntry(m[1..], i - 1);
    }
  }

  /** A key listed at some position is present. */
  lemma {:induction false} ListedKeyIsPresent(m: OrderedMap, i: int)
    requires 0 <= i < |m|
    ensures Has(m, m[i].key)
  {
    if i > 0 && m[0].key != m[i].key {
      ListedKeyIsPresent(m[1..], i - 1);
    }
  }

  /** A key that is present is listed at some position. */
  lemma {:induction false} PresentKeyIsListed(m: OrderedMap, k: string)
    requires Has(m, k)
    ensures exists i :: 0 <= i < |m| && m[i].key == k && Get(m, k) == Some(m[i].value)
  {
    if m[0].key != k {
      PresentKeyIsListed(m[1..], k);
      var i :| 0 <= i < |m[1..]| && m[1..][i].key == k && Get(m[1..], k) == Some(m[1..][i].value);
      assert m[i + 1].key == k;
    }
  }

  /**
   * `Object.values` lists exactly the stored tokens: the value at each
   * position is what its key holds, and the token held by any present key
   * is among the values.
   */
  lemma ValuesListStoredTokens(m: OrderedMap)
    requires DistinctKeys(m)
    ensures forall i :: 0 <= i < |m| ==> Get(m, m[i].key) == Some(Values(m)[i])
    ensures forall k :: Has(m, k) ==> Get(m, k).value in Values(m)
  {
    forall i | 0 <= i < |m|
      ensures Get(m, m[i].key) == Some(Values(m)[i])
    {
      GetFindsEntry(m, i);
    }
    forall k | Has(m, k)
      ensures Get(m, k).value in Values(m)
    {
      PresentKeyIsListed(m, k);
      var i :| 0 <= i < |m| && m[i].key == k && Get(m, k) == Some(m[i].value);
      assert Values(m)[i] == m[i].value;
    }
  }

  /** Assigning a new key appends one property at the end. */
  lemma {:induction false} AssignNewKey(m: OrderedMap, k: string, v: TokenType)
    requires !Has(m, k)
    ensures Assign(m, k, v) == m + [Entry(k, v)]
  {
    if m != [] {
      AssignNewKey(m[1..], k, v);
      assert m == [m[0]] + m[1..];
    }
  }

  /** Re-assigning the key at position `p` replaces that property where it stands. */
  lemma {:induction false} AssignExistingKey(m: OrderedMap, k: string, v: TokenType, p: int)
    requires DistinctKeys(m) && 0 <= p < |m| && m[p].key == k
    ensures Assign(m, k, v) == m[p := Entry(k, v)]
  {
    if p > 0 {
      assert m[0].key != k;
      AssignExistingKey(m[1..], k, v, p - 1);
      assert m[1..][p - 1 := Entry(k, v)] == m[p := Entry(k, v)][1..];
    }
  }

  /** Assigning keeps every key listed once. */
  lemma AssignKeepsKeysDistinct(m: OrderedMap, k: string, v: TokenType)
    requires DistinctKeys(m)
    ensures DistinctKeys(Assign(m, k, v))
  {
    if Has(m, k) {
      PresentKeyIsListed(m, k);
      var p :| 0 <= p < |m| && m[p].key == k && Get(m, k) == Some(m[p].value);
      AssignExistingKey(m, k, v, p);
    } else {
      forall i | 0 <= i < |m|
        ensures m[i].key != k
      {
        GetFindsEntry(m, i);
      }
      AssignNewKey(m, k, v);
    }
  }

  /** Assigning a new key appends its value to `Object.values`. */
  lemma ValuesAfterNewKey(m: OrderedMap, k: string, v: TokenType)
    requires !Has(m, k)
    ensures Values(Assign(m, k, v)) == Values(m) + [v]
  {
    AssignNewKey(m, k, v);
  }

  /** Re-assigning a key that is present replaces its value in place in `Object.values`. */
  lemma ValuesAfterExistingKey(m: OrderedMap, k: string, v: TokenType, p: int)
    requires DistinctKeys(m) && 0 <= p < |m| && m[p].key == k
    ensures Values(Assign(m, k, v)) == Values(m)[p := v]
  {
    AssignExistingKey(m, k, v, p);
  }

  /** The assignments of `log`, made one after the other to the object `m`. */
  function Replay(m: OrderedMap, log: seq<Entry>): (r: OrderedMap)
    ensures KeyedByName(m) && KeyedByName(log) ==> KeyedByName(r)
    decreases |log|
  {
    if log == [] then m
    else
      var last := log[|log| - 1];
      Assign(Replay(m, log[..|log| - 1]), last.key, last.value)
  }

  /** After the assignments, the keys present are the old ones and the assigned ones. */
  lemma {:induction false} ReplayPresentKeys(m: OrderedMap, log: seq<Entry>)
    ensures forall k :: Has(Replay(m, log), k) <==> Has(m, k) || k in AssignedKeys(log)
    decreases |log|
  {
    if log != [] {
      var init, last := log[..|log| - 1], log[|log| - 1];
      ReplayPresentKeys(m, init);
      assert AssignedKeys(log) == AssignedKeys(init) + {last.key} by {
        assert log == init + [last];
      }
    }
  }

  /** Replaying one more assignment is assigning it to the replayed object. */
  lemma ReplayOneMore(m: OrderedMap, log: seq<Entry>, e: Entry)
    ensures Replay(m, log + [e]) == Assign(Replay(m, log), e.key, e.value)
  {
    assert (log + [e])[..|log|] == log;
  }

  /** Replaying two lists of assignments is replaying the second onto the result of the first. */
  lemma {:induction false} ReplayConcat(m: OrderedMap, log1: seq<Entry>, log2: seq<Entry>)
    ensures Replay(m, log1 + log2) == Replay(Replay(m, log1), log2)
    decreases |log2|
  {
    if log2 == [] {
      assert log1 + log2 == log1;
    } else {
      var init, last := log2[..|log2| - 1], log2[|log2| - 1];
      calc {
        Replay(m, log1 + log2);
        { assert log1 + log2 == (log1 + init) + [last]; }
        Replay(m, (log1 + init) + [last]);
        { ReplayOneMore(m, log1 + init, last); }
        Assign(Replay(m, log1 + init), last.key, last.value);
        { ReplayConcat(m, log1, init); }
        Assign(Replay(Replay(m, log1), init), last.key, last.value);
        { ReplayOneMore(Replay(m, log1), init, last); }
        Replay(Replay(m, log1), init + [last]);
        { assert init + [last] == log2; }
        Replay(Replay(m, log1), log2);
      }
    }
  }

  /** After the assignments, a key holds the value of the last assignment to it. */
  lemma {:induction false} ReplayStoresLastAssignment(m: OrderedMap, log: seq<Entry>)
    ensures forall i :: 0 <= i < |log| && LastToItsKey(log, i) ==>
      Get(Replay(m, log), log[i].key) == Some(log[i].value)
    decreases |log|
  {
    if log != [] {
      var init, last := log[..|log| - 1], log[|log| - 1];
      ReplayStoresLastAssignment(m, init);
      var r := Replay(m, log);
      assert r == Assign(Replay(m, init), last.key, last.value);
      forall i | 0 <= i < |log| - 1 && LastToItsKey(log, i)
        ensures Get(r, log[i].key) == Some(log[i].value)
      {
        assert LastToItsKey(init, i);
        assert log[i] == init[i];
      }
    }
  }

  /** The assignments leave the keys they do not write to as they were. */
  lemma {:induction false} ReplayKeepsOthers(m: OrderedMap, log: seq<Entry>)
    ensures forall k :: k !in AssignedKeys(log) ==> Get(Replay(m, log), k) == Get(m, k)
    decreases |log|
  {
    if log != [] {
      var init, last := log[..|log| - 1], log[|log| - 1];
      ReplayKeepsOthers(m, init);
      assert AssignedKeys(init) <= AssignedKeys(log);
      assert last.key in AssignedKeys(log);
    }
  }

  /** Each assignment adds at most one key: the object ends with at most one key per assignment more. */
  lemma {:induction false} ReplayGrowsByAtMostLog(m: OrderedMap, log: seq<Entry>)
    ensures |Replay(m, log)| <= |m| + |log|
    decreases |log|
  {
    if log != [] {
      ReplayGrowsByAtMostLog(m, log[..|log| - 1]);
    }
  }

  /** The assignments never move a key that was already present: the old keys keep their positions. */
  lemma {:induction false} ReplayKeepsOrder(m: OrderedMap, log: seq<Entry>)
    ensures |m| <= |Replay(m, log)|
    ensures forall i :: 0 <= i < |m| ==> Replay(m, log)[i].key == m[i].key
    decreases |log|
  {
    if log != [] {
      ReplayKeepsOrder(m, log[..|log| - 1]);
    }
  }

  /** The assignments keep every key listed once. */
  lemma {:induction false} ReplayKeepsKeysDistinct(m: OrderedMap, log: seq<Entry>)
    requires DistinctKeys(m)
    ensures DistinctKeys(Replay(m, log))
    decreases |log|
  {
    if log != [] {
      var init, last := log[..|log| - 1], log[|log| - 1];
      ReplayKeepsKeysDistinct(m, init);
      AssignKeepsKeysDistinct(Replay(m, init), last.key, last.value);
    }
  }

  /** Two lists of assignments of tokens to their own names make one. */
  lemma KeyedByNameConcat(a: seq<Entry>, b: seq<Entry>)
    requires KeyedByName(a) && KeyedByName(b)
    ensures KeyedByName(a + b)
  {
    forall i | 0 <= i < |a + b| ensures (a + b)[i].value.config.name == (a + b)[i].key {
      if i >= |a| {
        assert (a + b)[i] == b[i - |a|];
      }
    }
  }

  /** The keys two lists of assignments write to, one after the other. */
  lemma AssignedKeysConcat(a: seq<Entry>, b: seq<Entry>)
    ensures AssignedKeys(a + b) == AssignedKeys(a) + AssignedKeys(b)
  {
    forall k | k in AssignedKeys(a + b) ensures k in AssignedKeys(a) + AssignedKeys(b) {
      var e :| e in a + b && e.key == k;
      assert e in a || e in b;
    }
    forall k | k in AssignedKeys(a) + AssignedKeys(b) ensures k in AssignedKeys(a + b) {
      if k in AssignedKeys(a) {
        var e :| e in a && e.key == k;
        assert e in a + b;
      } else {
        var e :| e in b && e.key == k;
        assert e in a + b;
      }
    }
  }

  /** A key written by neither of two lists of assignments is not written by the two together. */
  lemma UnwrittenByConcat(a: seq<Entry>, b: seq<Entry>, k: string)
    requires k !in AssignedKeys(a) && k !in AssignedKeys(b)
    ensures k !in AssignedKeys(a + b)
  {
    AssignedKeysConcat(a, b);
  }

  /**
   * The keys are listed in the order of their first assignment: a key
   * assigned before a new key `e.key` is listed before it, whatever
   * assignments follow.
   */
  lemma AssignedEarlierListedEarlier(before: seq<Entry>, e: Entry, rest: seq<Entry>, k: string)
    requires k in AssignedKeys(before) && e.key !in AssignedKeys(before)
    ensures var r := Replay(Empty, before + [e] + rest);
      exists i, j :: 0 <= i < j < |r| && r[i].key == k && r[j].key == e.key
  {
    var stored := Replay(Empty, before);
    ReplayPresentKeys(Empty, before);
    ReplayOneMore(Empty, before, e);
    AssignNewKey(stored, e.key, e.value);
    ReplayConcat(Empty, before + [e], rest);
    ReplayKeepsOrder(stored + [e], rest);
    PresentKeyIsListed(stored, k);
    var i :| 0 <= i < |stored| && stored[i].key == k;
    var r := Replay(Empty, before + [e] + rest);
    assert r[i].key == k && r[|stored|].key == e.key;
  }

  /**
   * A key that no earlier assignment wrote goes last: its value ends
   * `Object.values`, and when the earlier assignments store tokens under
   * their own names, no earlier value bears that name.
   */
  lemma NewKeyGoesLast(log: seq<Entry>, e: Entry)
    requires e.key !in AssignedKeys(log) && KeyedByName(log)
    ensures var vs := Values(Replay(Empty, log + [e]));
      && |vs| > 0
      && vs[|vs| - 1] == e.value
      && forall i :: 0 <= i < |vs| - 1 ==> vs[i].config.name != e.key
  {
    var stored := Replay(Empty, log);
    ReplayPresentKeys(Empty, log);
    ReplayOneMore(Empty, log, e);
    AssignNewKey(stored, e.key, e.value);
    ValuesAfterNewKey(stored, e.key, e.value);
    var vs := Values(Replay(Empty, log + [e]));
    forall i | 0 <= i < |vs| - 1 ensures vs[i].config.name != e.key {
      ListedKeyIsPresent(stored, i);
      assert vs[i] == stored[i].value;
    }
  }

  /** When every token is stored under its own name, `Object.values` lists the names in key order. */
  lemma KeyOrderIsNameOrder(m: OrderedMap, a: string, b: string)
    requires KeyedByName(m)
    requires exists i, j :: 0 <= i < j < |m| && m[i].key == a && m[j].key == b
    ensures exists i, j :: (0 <= i < j < |Values(m)|
      && Values(m)[i].config.name == a && Values(m)[j].config.name == b)
  {
    var i, j :| 0 <= i < j < |m| && m[i].key == a && m[j].key == b;
    assert Values(m)[i] == m[i].value && Values(m)[j] == m[j].value;
  }

  /** The assignments `obj[token.name] = token` made by `ts.forEach(...)`. */
  function EntriesOf(ts: seq<TokenType>): (log: seq<Entry>)
    ensures |log| == |ts|
    ensures forall i :: 0 <= i < |ts| ==> log[i].key == ts[i].config.name && log[i].value == ts[i]
    ensures KeyedByName(log)
    ensures AssignedKeys(log) == Names(ts)
  {
    seq(|ts|, i requires 0 <= i < |ts| => Entry(ts[i].config.name, ts[i]))
  }

  /** Storing one more token under its own name extends the assignments by one entry. */
  lemma EntriesOfSnoc(ts: seq<TokenType>, t: TokenType)
    ensures EntriesOf(ts + [t]) == EntriesOf(ts) + [Entry(t.config.name, t)]
  {
    var l, r := EntriesOf(ts + [t]), EntriesOf(ts) + [Entry(t.config.name, t)];
    assert |l| == |r|;
    forall i | 0 <= i < |l| ensures l[i] == r[i] {
      if i < |ts| {
        assert (ts + [t])[i] == ts[i];
      }
    }
  }

  /**
   * The module-level `tokens` object, kept as the list of the assignments
   * `tokens[k] = v` made to it, in order; `Contents` is the object they
   * build from `{}`.
   */
  class TokenRegistry {
    var assignments: seq<Entry>

    function Contents(): OrderedMap
      reads this
    {
      Replay(Empty, assignments)
    }

    constructor ()
      ensures assignments == [] && Contents() == Empty
    {
      assignments := [];
    }

    /** `tokens[k] = v`. */
    method Put(k: string, v: TokenType)
      modifies this
      ensures assignments == old(assignments) + [Entry(k, v)]
      ensures Contents() == Assign(old(Contents()), k, v)
    {
      ReplayOneMore(Empty, assignments, Entry(k, v));
      assignments := assignments + [Entry(k, v)];
    }
  }
}
