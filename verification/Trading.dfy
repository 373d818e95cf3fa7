/** Vocabulary shared by every component: directions, optional values, results. */
module Trading {

  datatype Option<+T> = None | Some(value: T)

  /** A value or an error; usable with `:-`, which stands for the source's raised exceptions. */
  datatype Result<+T, +E> = Ok(value: T) | Err(error: E) {
    predicate IsFailure() {
      Err?
    }
    function PropagateFailure<U>(): Result<U, E>
      requires Err?
    {
      Err(error)
    }
    function Extract(): T
      requires Ok?
    {
      value
    }
  }

  datatype Direction = Long | Short {
    function Opposite(): Direction {
      if this == Long then Short else Long
    }
  }

  function Abs(x: real): real {
    if x < 0.0 then -x else x
  }

  function Min(x: real, y: real): real {
    if y < x then y else x
  }

  function Max(x: real, y: real): real {
    if y > x then y else x
  }

  /** Position contribution of `quantity` units held in `direction`. */
  function Signed(direction: Direction, quantity: real): real {
    if direction == Long then quantity else -quantity
  }

  /** Lexicographic order on texts. */
  predicate TextLess(a: string, b: string) {
    b != [] && (a == [] || a[0] < b[0] || (a[0] == b[0] && TextLess(a[1..], b[1..])))
  }

  lemma {:induction false} TextLessAsymmetric(a: string, b: string)
    ensures !(TextLess(a, b) && TextLess(b, a))
  {
    if a != [] && b != [] { TextLessAsymmetric(a[1..], b[1..]); }
  }

  lemma {:induction false} TextLessSplits(a: string, b: string, c: string)
    requires TextLess(a, c)
    ensures TextLess(a, b) || TextLess(b, c)
  {
    if a != [] && b != [] && c != [] && a[0] == b[0] && b[0] == c[0] { TextLessSplits(a[1..], b[1..], c[1..]); }
  }

  lemma {:induction false} TextLessTotal(a: string, b: string)
    ensures a == b || TextLess(a, b) || TextLess(b, a)
  {
    if a != [] && b != [] && a[0] == b[0] {
      TextLessTotal(a[1..], b[1..]);
      assert a == [a[0]] + a[1..] && b == [b[0]] + b[1..];
    }
  }

  lemma TwiceInSequence<T>(s: seq<T>, i: nat, j: nat)
    requires i < j < |s| && s[i] == s[j]
    ensures multiset(s)[s[i]] >= 2
  {
    assert s == s[..i] + [s[i]] + s[i + 1..j] + [s[j]] + s[j + 1..];
  }
}
