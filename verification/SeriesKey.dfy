// internal/remotewrite/encode.go: the map key of a label list.
module SeriesKey {
  import opened Text

  datatype Label = Label(name: string, value: string)

  type Labels = seq<Label>

  // One length-prefixed string: "<len>:<bytes>".
  function Field(s: string): string {
    Decimal(|s|) + ":" + s
  }

  function Key(labels: Labels): string {
    if labels == [] then ""
    else Field(labels[0].name) + Field(labels[0].value) + Key(labels[1..])
  }

  method SeriesKey(labels: Labels) returns (key: string)
    ensures key == Key(labels)
  {
    key := "";
    for i := 0 to |labels|
      invariant Key(labels) == key + Key(labels[i..])
    {
      assert labels[i..][1..] == labels[i + 1..];
      key := key + (Field(labels[i].name) + Field(labels[i].value));
    }
    assert labels[|labels|..] == [];
  }

  // The length prefix ends at the first byte that is not a digit.
  lemma {:induction false} DigitsEndAtColon(a: string, x: string, b: string, y: string)
    requires AllDigits(a) && AllDigits(b)
    requires a + (":" + x) == b + (":" + y)
    ensures a == b && x == y
  {
    var s := a + (":" + x);
    assert a == "" ==> s[0] == ':' && s[1..] == x;
    assert b == "" ==> s[0] == ':' && s[1..] == y;
    assert (a != "" ==> s[0] == a[0]) && (b != "" ==> s[0] == b[0]);
    if a != "" && b != "" {
      assert s[1..] == a[1..] + (":" + x) == b[1..] + (":" + y);
      DigitsEndAtColon(a[1..], x, b[1..], y);
      assert a == [a[0]] + a[1..] && b == [b[0]] + b[1..];
    }
  }

  // So a field is never a proper prefix of another, whatever bytes it holds.
  lemma FieldIsPrefixFree(a: string, x: string, b: string, y: string)
    requires Field(a) + x == Field(b) + y
    ensures a == b && x == y
  {
    DecimalNumber(|a|);
    DecimalNumber(|b|);
    assert Field(a) + x == Decimal(|a|) + (":" + (a + x));
    assert Field(b) + y == Decimal(|b|) + (":" + (b + y));
    DigitsEndAtColon(Decimal(|a|), a + x, Decimal(|b|), b + y);
    assert a == (a + x)[..|a|] && b == (b + y)[..|b|];
    assert x == (a + x)[|a|..] && y == (b + y)[|b|..];
  }

  lemma PairIsPrefixFree(a: string, b: string, x: string, c: string, d: string, y: string)
    requires Field(a) + (Field(b) + x) == Field(c) + (Field(d) + y)
    ensures a == c && b == d && x == y
  {
    FieldIsPrefixFree(a, Field(b) + x, c, Field(d) + y);
    FieldIsPrefixFree(b, x, d, y);
  }

  lemma KeyCons(l: Label, rest: Labels)
    ensures Key([l] + rest) == Field(l.name) + (Field(l.value) + Key(rest))
    ensures Key([l] + rest) != ""
  {
    assert ([l] + rest)[1..] == rest;
  }

  lemma {:induction false} KeyInjective(a: Labels, b: Labels)
    requires Key(a) == Key(b)
    ensures a == b
  {
    if a == [] || b == [] {
    } else {
      var l, m, rest, others := a[0], b[0], a[1..], b[1..];
      assert a == [l] + rest && b == [m] + others;
      KeyCons(l, rest);
      KeyCons(m, others);
      PairIsPrefixFree(l.name, l.value, Key(rest), m.name, m.value, Key(others));
      KeyInjective(rest, others);
    }
  }

  // Set membership of keys decides set membership of label lists, which is how withStale uses them.
  lemma KeysDecideMembership(labels: Labels, lists: set<Labels>)
    ensures Key(labels) in (set l | l in lists :: Key(l)) <==> labels in lists
  {
    if l :| l in lists && Key(l) == Key(labels) {
      KeyInjective(l, labels);
    }
  }
}
