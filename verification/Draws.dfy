/** Natural keys, draw content and the content fingerprint. Calendar dates are day
    numbers, ordered like their ISO text; 0 stands for the empty date text. */
module Draws {

  type Day = d: nat | 1 <= d witness 1

  datatype Game = Lotto | TwoStep | Cash5 | Powerball | MegaMillions | Pick3 | Daily4 | AllOrNothing

  datatype Session = NoSession | Morning | Midday | Evening | Night

  datatype Key = Key(game: Game, day: Day, session: Session)

  /** What a draw says: its numbers, its bonus numbers, and its metadata as JSON text. */
  datatype Content = Content(ordered: seq<nat>, bonus: seq<nat>, metadata: string)

  function Decimal(n: nat): (s: string)
    ensures s != "" && forall c :: c in s ==> '0' <= c <= '9'
    ensures |s| == 1 <==> n < 10
  {
    var digit := ['0' + (n % 10) as char];
    if n < 10 then digit else Decimal(n / 10) + digit
  }

  function JoinNumbers(ns: seq<nat>): (s: string)
    ensures '|' !in s
    ensures s == "" <==> ns == []
    ensures ',' in s <==> |ns| > 1
  {
    if ns == [] then "" else if |ns| == 1 then Decimal(ns[0])
    else Decimal(ns[0]) + "," + JoinNumbers(ns[1..])
  }

  function GameCode(g: Game): string {
    match g
    case Lotto => "lotto" case TwoStep => "twostep" case Cash5 => "cash5" case Powerball => "pb"
    case MegaMillions => "mm" case Pick3 => "p3" case Daily4 => "d4" case AllOrNothing => "aon"
  }

  function SessionName(s: Session): string {
    match s
    case NoSession => "" case Morning => "morning" case Midday => "day" case Evening => "evening"
    case Night => "night"
  }

  function KeyText(k: Key): string {
    GameCode(k.game) + "|" + Decimal(k.day) + "|" + SessionName(k.session) + "|"
  }

  function Fingerprint(k: Key, c: Content): string {
    KeyText(k) + (JoinNumbers(c.ordered) + "|" + (JoinNumbers(c.bonus) + "|" + c.metadata))
  }

  function FirstMark(s: string, mark: char): nat {
    if s == "" || s[0] == mark then 0 else 1 + FirstMark(s[1..], mark)
  }

  lemma {:induction false} FirstMarkAfter(a: string, mark: char, b: string)
    requires mark !in a
    ensures FirstMark(a + [mark] + b, mark) == |a|
  {
    if a != "" {
      assert (a + [mark] + b)[1..] == a[1..] + [mark] + b;
      assert a[0] in a;
      FirstMarkAfter(a[1..], mark, b);
    }
  }

  lemma SplitAtMark(a: string, b: string, a': string, b': string, mark: char)
    requires mark !in a && mark !in a'
    requires a + [mark] + b == a' + [mark] + b'
    ensures a == a' && b == b'
  {
    FirstMarkAfter(a, mark, b);
    FirstMarkAfter(a', mark, b');
    var all := a + [mark] + b;
    assert all[..|a|] == a && all[|a| + 1..] == b;
    assert all[..|a'|] == a' && all[|a'| + 1..] == b';
  }

  lemma {:induction false} DecimalInjective(m: nat, n: nat)
    requires Decimal(m) == Decimal(n)
    ensures m == n
    decreases m
  {
    var s := Decimal(m);
    assert s[|s| - 1] == '0' + (m % 10) as char == '0' + (n % 10) as char;
    assert m % 10 == n % 10;
    if m >= 10 {
      assert s[..|s| - 1] == Decimal(m / 10) == Decimal(n / 10);
      DecimalInjective(m / 10, n / 10);
    }
  }

  lemma {:induction false} JoinInjective(m: seq<nat>, n: seq<nat>)
    requires JoinNumbers(m) == JoinNumbers(n)
    ensures m == n
    decreases |m|
  {
    if m == [] {
    } else if |m| == 1 {
      DecimalInjective(m[0], n[0]);
    } else {
      SplitAtMark(Decimal(m[0]), JoinNumbers(m[1..]), Decimal(n[0]), JoinNumbers(n[1..]), ',');
      DecimalInjective(m[0], n[0]);
      JoinInjective(m[1..], n[1..]);
      assert m == [m[0]] + m[1..] && n == [n[0]] + n[1..];
    }
  }

  /** Two revisions of one draw have the same fingerprint exactly when they say the same. */
  lemma FingerprintIdentifiesContent(k: Key, c: Content, d: Content)
    ensures Fingerprint(k, c) == Fingerprint(k, d) <==> c == d
  {
    if Fingerprint(k, c) == Fingerprint(k, d) {
      var prefix := KeyText(k);
      var tc := JoinNumbers(c.bonus) + "|" + c.metadata;
      var td := JoinNumbers(d.bonus) + "|" + d.metadata;
      assert Fingerprint(k, c)[|prefix|..] == JoinNumbers(c.ordered) + "|" + tc;
      assert Fingerprint(k, d)[|prefix|..] == JoinNumbers(d.ordered) + "|" + td;
      SplitAtMark(JoinNumbers(c.ordered), tc, JoinNumbers(d.ordered), td, '|');
      SplitAtMark(JoinNumbers(c.bonus), c.metadata, JoinNumbers(d.bonus), d.metadata, '|');
      JoinInjective(c.ordered, d.ordered);
      JoinInjective(c.bonus, d.bonus);
    }
  }
}
