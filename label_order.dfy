/**
 * The order `ORDER BY label ASC` puts datasets in: text compared character
 * by character (a binary collation), and a NULL label after every text
 * label, as PostgreSQL orders NULLs in an ascending sort.
 */
module LabelOrder {
  import opened Wrappers

  /** Lexicographic "at most" on strings: a prefix comes first. */
  predicate TextLe(a: string, b: string)
  {
    if a == [] then true
    else if b == [] then false
    else a[0] < b[0] || (a[0] == b[0] && TextLe(a[1..], b[1..]))
  }

  lemma {:induction false} TextLeTotal(a: string, b: string)
    ensures TextLe(a, b) || TextLe(b, a)
  {
    if a != [] && b != [] && a[0] == b[0] {
      TextLeTotal(a[1..], b[1..]);
    }
  }

  lemma {:induction false} TextLeTransitive(a: string, b: string, c: string)
    requires TextLe(a, b) && TextLe(b, c)
    ensures TextLe(a, c)
  {
    if a != [] && b != [] && c != [] && a[0] == b[0] == c[0] {
      TextLeTransitive(a[1..], b[1..], c[1..]);
    }
  }

  lemma {:induction false} TextLeAntisymmetric(a: string, b: string)
    requires TextLe(a, b) && TextLe(b, a)
    ensures a == b
  {
    if a != [] && b != [] {
      TextLeAntisymmetric(a[1..], b[1..]);
      assert a == [a[0]] + a[1..];
      assert b == [b[0]] + b[1..];
    }
  }

  /** Ascending order of nullable labels, NULL last. */
  predicate LabelLe(a: Option<string>, b: Option<string>)
  {
    match (a, b)
    case (_, None) => true
    case (None, Some(_)) => false
    case (Some(x), Some(y)) => TextLe(x, y)
  }

  lemma LabelLeTotal(a: Option<string>, b: Option<string>)
    ensures LabelLe(a, b) || LabelLe(b, a)
  {
    if a.Some? && b.Some? {
      TextLeTotal(a.value, b.value);
    }
  }

  lemma LabelLeTransitive(a: Option<string>, b: Option<string>, c: Option<string>)
    requires LabelLe(a, b) && LabelLe(b, c)
    ensures LabelLe(a, c)
  {
    if a.Some? && b.Some? && c.Some? {
      TextLeTransitive(a.value, b.value, c.value);
    }
  }
}
