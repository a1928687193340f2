/** The parts of QString that the D-Bus code relies on. */
module QtText {

  /** A null string and an empty string are different values that compare equal. */
  datatype QString = Null | Str(text: string) {

    function Text(): string {
      if Null? then "" else text
    }

    predicate IsEmpty() {
      Text() == ""
    }

    /** operator==, which does not see the difference between null and empty. */
    predicate Same(other: QString) {
      Text() == other.Text()
    }
  }

  /** operator== of QStringList. */
  predicate SameList(a: seq<QString>, b: seq<QString>) {
    |a| == |b| && forall i | 0 <= i < |a| :: a[i].Same(b[i])
  }

  /** QString::number for the non-negative indices used in match rules. */
  function Decimal(n: nat): (s: string)
    ensures s != ""
    ensures forall c | c in s :: '0' <= c <= '9'
  {
    if n < 10 then [('0' as int + n) as char]
    else Decimal(n / 10) + [('0' as int + n % 10) as char]
  }

  lemma {:induction false} DecimalInjective(a: nat, b: nat)
    requires Decimal(a) == Decimal(b)
    ensures a == b
  {
    var x, y := Decimal(a), Decimal(b);
    assert x[|x| - 1] as int == '0' as int + a % 10;
    assert y[|y| - 1] as int == '0' as int + b % 10;
    if a >= 10 && b >= 10 {
      assert x[..|x| - 1] == Decimal(a / 10);
      assert y[..|y| - 1] == Decimal(b / 10);
      DecimalInjective(a / 10, b / 10);
    }
  }
}
