/** Lines of text: how a line feed lets the parts of a message be told apart. */
module Text {

  predicate NoBreak(s: string) {
    forall i | 0 <= i < |s| :: s[i] != '\n'
  }

  /** A line and what follows it. */
  function Line(a: string, rest: string): string {
    a + ("\n" + rest)
  }

  function UpToBreak(s: string): string {
    if s == [] || s[0] == '\n' then [] else [s[0]] + UpToBreak(s[1..])
  }

  lemma {:induction false} FirstLine(a: string, rest: string)
    requires NoBreak(a)
    ensures UpToBreak(Line(a, rest)) == a
  {
    if a != [] {
      assert Line(a, rest)[1..] == Line(a[1..], rest);
      FirstLine(a[1..], rest);
    } else {
      assert Line(a, rest)[0] == '\n';
    }
  }

  lemma PrefixCancels(p: string, a: string, b: string)
    requires p + a == p + b
    ensures a == b
  {
    assert (p + a)[|p|..] == a && (p + b)[|p|..] == b;
  }

  /** The first line of a text and its rest are determined by the text. */
  lemma LineInjective(a: string, x: string, b: string, y: string)
    requires NoBreak(a) && NoBreak(b) && Line(a, x) == Line(b, y)
    ensures a == b && x == y
  {
    FirstLine(a, x);
    FirstLine(b, y);
    PrefixCancels(a, "\n" + x, "\n" + y);
    PrefixCancels("\n", x, y);
  }

  /** The same with a fixed label in front of the line. */
  lemma LabelledInjective(tag: string, a: string, x: string, b: string, y: string)
    requires NoBreak(a) && NoBreak(b) && tag + Line(a, x) == tag + Line(b, y)
    ensures a == b && x == y
  {
    PrefixCancels(tag, Line(a, x), Line(b, y));
    LineInjective(a, x, b, y);
  }
}
