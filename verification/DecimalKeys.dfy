/** Decimal text of integers and of comma-joined lists of them: different lists never have the
    same text, so the text can serve as a key. */
module DecimalKeys {
  import opened NumberText

  function Decimal(n: int): string {
    Text(n, 10)
  }

  /** The numbers with a comma between each two. */
  function Join(xs: seq<int>): string
    decreases xs, 1
  {
    if xs == [] then "" else Decimal(xs[0]) + Tail(xs)
  }

  /** What follows the first number: nothing, or a comma and the rest. */
  function Tail(xs: seq<int>): string
    requires xs != []
    decreases xs, 0
  {
    if |xs| == 1 then "" else "," + Join(xs[1..])
  }

  lemma NoComma(n: int)
    ensures forall i :: 0 <= i < |Decimal(n)| ==> Decimal(n)[i] != ','
  {
    DigitsAreDigits(if n < 0 then -n else n, 10);
  }

  /** Where the first part of a text ends: at the first comma, or at the end. */
  lemma EndsAtComma(a: string, x: string, s: string, i: nat)
    requires s == a + x && (x == "" || x[0] == ',') && i <= |s|
    requires forall j :: 0 <= j < |a| ==> a[j] != ','
    requires (forall j :: 0 <= j < i ==> s[j] != ',') && (i == |s| || s[i] == ',')
    ensures i == |a|
  {
    assert forall j :: 0 <= j < |a| ==> s[j] == a[j];
    assert x != "" ==> s[|a|] == x[0];
  }

  /** A text is split in one way into a comma-free part and a rest that is empty or starts
      with a comma. */
  lemma SplitUnique(a: string, x: string, b: string, y: string)
    requires a + x == b + y
    requires (forall i :: 0 <= i < |a| ==> a[i] != ',') && (forall i :: 0 <= i < |b| ==> b[i] != ',')
    requires (x == "" || x[0] == ',') && (y == "" || y[0] == ',')
    ensures a == b && x == y
  {
    var s := a + x;
    assert forall j :: 0 <= j < |a| ==> s[j] == a[j];
    EndsAtComma(b, y, s, |a|);
    assert a == s[..|a|] && b == (b + y)[..|b|];
    assert x == s[|a|..] && y == (b + y)[|b|..];
  }

  /** Different lists have different texts. */
  lemma {:induction false} JoinInjective(xs: seq<int>, ys: seq<int>)
    requires Join(xs) == Join(ys)
    ensures xs == ys
  {
    if xs != [] && ys != [] {
      NoComma(xs[0]);
      NoComma(ys[0]);
      SplitUnique(Decimal(xs[0]), Tail(xs), Decimal(ys[0]), Tail(ys));
      TextInjective(xs[0], ys[0], 10);
      if |xs| > 1 && |ys| > 1 {
        assert Tail(xs)[1..] == Join(xs[1..]) && Tail(ys)[1..] == Join(ys[1..]);
        JoinInjective(xs[1..], ys[1..]);
      }
      assert xs == [xs[0]] + xs[1..] && ys == [ys[0]] + ys[1..];
    } else {
      JoinNotEmpty(if xs == [] then ys else xs);
    }
  }

  lemma {:induction false} JoinNotEmpty(xs: seq<int>)
    ensures xs == [] <==> Join(xs) == ""
  {
  }
}
