/** How the `domain` parameter becomes the list of domains: the flat-record script splits
    on ",", the record-set script on ", " (comma and space), and both trim each piece. A
    comma without a space is therefore no separator for the record-set script. */
module DomainLists {
  import opened Text

  /** A non-empty item with no blank at either end, as a domain name is. */
  predicate Plain(s: string) {
    s != [] && !Blank(s[0]) && !Blank(s[|s| - 1])
  }

  /** A plain string is its own trim. */
  lemma {:induction false} TrimPlain(s: string)
    requires Plain(s)
    ensures Trim(s) == s
  {
    TrimUnchanged(s);
  }

  /** The flat-record script reads "a, b" as the two domains a and b: the space after the
      comma is trimmed away. */
  lemma {:induction false} FlatListWithSpace(a: string, b: string)
    requires Plain(a) && Plain(b) && ',' !in a && ',' !in b
    ensures Tokens(a + ", " + b, ",") == [a, b]
  {
    assert a + ", " + b == a + [','] + ([' '] + b);
    TokensPair(a, [' '] + b, ',');
    TrimPlain(a);
    TrimLeadingBlank(' ', b);
    TrimPlain(b);
  }

  /** The flat-record script reads "a,b" as the two domains a and b too. */
  lemma {:induction false} FlatListWithoutSpace(a: string, b: string)
    requires Plain(a) && Plain(b) && ',' !in a && ',' !in b
    ensures Tokens(a + "," + b, ",") == [a, b]
  {
    assert a + "," + b == a + [','] + b;
    TokensPair(a, b, ',');
    TrimPlain(a);
    TrimPlain(b);
  }

  /** The record-set script reads "a, b" as the two domains a and b. */
  lemma {:induction false} CloudListWithSpace(a: string, b: string)
    requires Plain(a) && Plain(b) && ',' !in a && ',' !in b
    ensures Tokens(a + ", " + b, ", ") == [a, b]
  {
    TokensAfterSeparator(a, ", ", b);
    MissingCharNoOccurrence(b, ", ", 0);
    TokensWithout(b, ", ");
    TrimPlain(a);
    TrimPlain(b);
  }

  /** But the record-set script reads "a,b" as one domain, the whole string: a list written
      without spaces is not split. */
  lemma {:induction false} CloudListWithoutSpace(a: string, b: string)
    requires Plain(a) && Plain(b) && ' ' !in a && ' ' !in b
    ensures Tokens(a + "," + b, ", ") == [a + "," + b]
  {
    var s := a + "," + b;
    assert ' ' !in s;
    MissingCharNoOccurrence(s, ", ", 1);
    TokensWithout(s, ", ");
    TrimPlain(s);
  }
}
