/**
 * The text keys under which the solver files positions: "<o>|<x>|<turn>",
 * where a queue is written "null" inside a sentinel, "" when empty, and
 * otherwise as its cells in decimal joined by commas.
 */
module Keys {
  import opened Wrappers
  import opened Rules

  // ---------------------------------------------------------------------
  // Decimal text of integers, and its reading back.

  predicate IsDigit(c: char) {
    '0' <= c <= '9'
  }

  predicate AllDigits(t: string) {
    forall i :: 0 <= i < |t| ==> IsDigit(t[i])
  }

  function DigitChar(d: int): (c: char)
    requires 0 <= d < 10
    ensures IsDigit(c)
  {
    (48 + d) as char
  }

  /** The decimal digits of `n`, most significant first. */
  function NatText(n: nat): (r: string)
    ensures |r| > 0 && AllDigits(r)
  {
    if n < 10 then [DigitChar(n)]
    else NatText(n / 10) + [DigitChar(n % 10)]
  }

  /** The value of a string of decimal digits. */
  function DigitsValue(t: string): nat
    requires AllDigits(t)
  {
    if |t| == 0 then 0
    else DigitsValue(t[..|t| - 1]) * 10 + ((t[|t| - 1] as int) - 48)
  }

  lemma {:induction false} DigitsRoundTrip(n: nat)
    ensures DigitsValue(NatText(n)) == n
  {
    var t := NatText(n);
    if n >= 10 {
      DigitsRoundTrip(n / 10);
      assert t[..|t| - 1] == NatText(n / 10);
    }
  }

  /** Integer to text, as JavaScript's number-to-string conversion writes integers. */
  function IntText(n: int): (r: string)
    ensures |r| > 0 && (IsDigit(r[0]) || r[0] == '-')
    ensures forall i :: 0 <= i < |r| ==> r[i] != ',' && r[i] != '|'
  {
    if n < 0 then "-" + NatText(-n) else NatText(n)
  }

  /**
   * Text to integer for the forms IntText writes: an optional minus sign and
   * at least one decimal digit. Every other text reads as `None`.
   */
  function ParseInt(t: string): Option<int> {
    if |t| > 0 && AllDigits(t) then Some(DigitsValue(t))
    else if |t| > 1 && t[0] == '-' && AllDigits(t[1..]) then Some(-(DigitsValue(t[1..]) as int))
    else None
  }

  lemma IntRoundTrip(n: int)
    ensures ParseInt(IntText(n)) == Some(n)
  {
    var t := IntText(n);
    if n < 0 {
      assert t[1..] == NatText(-n);
      assert !IsDigit(t[0]);
      DigitsRoundTrip(-n);
    } else {
      DigitsRoundTrip(n);
    }
  }

  // ---------------------------------------------------------------------
  // Joining and splitting on a one-character separator.

  function Join(parts: seq<string>, sep: char): string {
    if |parts| == 0 then ""
    else if |parts| == 1 then parts[0]
    else parts[0] + [sep] + Join(parts[1..], sep)
  }

  /** The position of the first `c` in `s`. */
  function FirstIndex(s: string, c: char): (i: nat)
    requires c in s
    ensures i < |s| && s[i] == c && c !in s[..i]
  {
    if s[0] == c then 0
    else
      assert s == [s[0]] + s[1..];
      1 + FirstIndex(s[1..], c)
  }

  /** The pieces between the separators; a text without separator is one piece. */
  function Split(s: string, sep: char): (r: seq<string>)
    ensures |r| > 0
    decreases |s|
  {
    if sep !in s then [s]
    else
      var i := FirstIndex(s, sep);
      [s[..i]] + Split(s[i + 1..], sep)
  }

  lemma {:induction false} SplitJoin(parts: seq<string>, sep: char)
    requires |parts| > 0
    requires forall k :: 0 <= k < |parts| ==> sep !in parts[k]
    ensures Split(Join(parts, sep), sep) == parts
  {
    if |parts| > 1 {
      var rest := Join(parts[1..], sep);
      var s := parts[0] + [sep] + rest;
      assert s[|parts[0]|] == sep && s[..|parts[0]|] == parts[0];
      assert FirstIndex(s, sep) == |parts[0]|;
      assert s[|parts[0]| + 1..] == rest;
      SplitJoin(parts[1..], sep);
    }
  }

  // ---------------------------------------------------------------------
  // Queues, turns and whole keys.

  function Texts(cs: seq<int>): (r: seq<string>)
    ensures |r| == |cs|
    ensures forall k :: 0 <= k < |r| ==> r[k] == IntText(cs[k])
  {
    if |cs| == 0 then [] else [IntText(cs[0])] + Texts(cs[1..])
  }

  function QueueText(q: Queue): string {
    match q
    case Null => "null"
    case Cells(cs) => if |cs| == 0 then "" else Join(Texts(cs), ',')
  }

  function TurnText(p: Player): string {
    if p == O then "O" else "X"
  }

  /** The key of a position: exactly three '|'-separated fields, the O queue, the X queue and the turn. */
  function StateKey(s: State): (r: string)
    ensures Split(r, '|') == [QueueText(s.o), QueueText(s.x), TurnText(s.turn)]
  {
    var a, b, c := QueueText(s.o), QueueText(s.x), TurnText(s.turn);
    QueueRoundTrip(s.o);
    QueueRoundTrip(s.x);
    assert [a, b, c][1..] == [b, c] && [b, c][1..] == [c];
    assert Join([b, c], '|') == b + "|" + c;
    assert Join([a, b, c], '|') == a + "|" + (b + "|" + c) == a + "|" + b + "|" + c;
    SplitJoin([a, b, c], '|');
    a + "|" + b + "|" + c
  }

  function ParseInts(parts: seq<string>): (r: Option<seq<int>>)
    ensures r.Some? ==> |r.value| == |parts|
  {
    if |parts| == 0 then Some([])
    else match (ParseInt(parts[0]), ParseInts(parts[1..]))
      case (Some(n), Some(ns)) => Some([n] + ns)
      case _ => None
  }

  function ParseQueue(t: string): Option<Queue> {
    if t == "null" then Some(Null)
    else if t == "" then Some(Cells([]))
    else match ParseInts(Split(t, ','))
      case Some(cs) => Some(Cells(cs))
      case None => None
  }

  function ParseTurn(t: string): Option<Player> {
    if t == "O" then Some(O) else if t == "X" then Some(X) else None
  }

  /** Reads a key back; pieces after the third separator are ignored, as `_parseStateKey` in solver.js ignores them. */
  function ParseStateKey(key: string): (r: Option<State>)
    ensures forall s :: StateKey(s) == key ==> r == Some(s)
  {
    assert forall q :: ParseQueue(QueueText(q)) == Some(q) by {
      forall q ensures ParseQueue(QueueText(q)) == Some(q) {
        QueueRoundTrip(q);
      }
    }
    var parts := Split(key, '|');
    if |parts| < 3 then None
    else match (ParseQueue(parts[0]), ParseQueue(parts[1]), ParseTurn(parts[2]))
      case (Some(o), Some(x), Some(t)) => Some(State(o, x, t))
      case _ => None
  }

  lemma IntsRoundTrip(cs: seq<int>)
    ensures ParseInts(Texts(cs)) == Some(cs)
  {
    var ts := Texts(cs);
    forall k | 0 <= k < |cs| ensures ParseInt(ts[k]) == Some(cs[k]) {
      IntRoundTrip(cs[k]);
    }
    ParseIntsPointwise(ts, cs);
  }

  /** A list of texts each of which reads as the matching number reads as the list of those numbers. */
  lemma {:induction false} ParseIntsPointwise(ts: seq<string>, ns: seq<int>)
    requires |ts| == |ns|
    requires forall k :: 0 <= k < |ts| ==> ParseInt(ts[k]) == Some(ns[k])
    ensures ParseInts(ts) == Some(ns)
  {
    if |ts| > 0 {
      ParseIntsPointwise(ts[1..], ns[1..]);
      assert [ns[0]] + ns[1..] == ns;
    }
  }

  lemma {:induction false} JoinStartsWithFirst(parts: seq<string>, sep: char)
    requires |parts| > 0 && |parts[0]| > 0
    ensures |Join(parts, sep)| > 0 && Join(parts, sep)[0] == parts[0][0]
  {
  }

  lemma {:induction false} JoinHasNo(parts: seq<string>, sep: char, c: char)
    requires c != sep
    requires forall k :: 0 <= k < |parts| ==> c !in parts[k]
    ensures c !in Join(parts, sep)
  {
    if |parts| > 1 {
      JoinHasNo(parts[1..], sep, c);
    }
  }

  lemma QueueRoundTrip(q: Queue)
    ensures '|' !in QueueText(q)
    ensures ParseQueue(QueueText(q)) == Some(q)
  {
    match q
    case Null =>
    case Cells(cs) =>
      if |cs| > 0 {
        var texts := Texts(cs);
        assert forall k :: 0 <= k < |texts| ==> ',' !in texts[k] && '|' !in texts[k];
        JoinHasNo(texts, ',', '|');
        JoinStartsWithFirst(texts, ',');
        var t := Join(texts, ',');
        assert t != "" && t != "null";
        SplitJoin(texts, ',');
        IntsRoundTrip(cs);
      }
  }

  /** Reading a key back gives the position it was made from. */
  lemma KeyRoundTrip(s: State)
    ensures ParseStateKey(StateKey(s)) == Some(s)
  {
  }

  /** Different positions never share a key, so tables keyed by text can be keyed by position. */
  lemma KeysAreUnique(s: State, t: State)
    requires StateKey(s) == StateKey(t)
    ensures s == t
  {
    KeyRoundTrip(s);
    KeyRoundTrip(t);
  }
}
