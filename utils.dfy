/** The planner's utility header: the obstacle rectangle and the container-to-text helper. */
module Utils {
  import opened Decimal

  /** An axis-aligned obstacle: (x, y) is its top-left corner, l its extent along x and w its
      extent along y. Nothing changes a rectangle once it is built, so its fields are constant. */
  class Rectangle {
    const x: int
    const y: int
    const l: int
    const w: int

    constructor (x: int, y: int, l: int, w: int)
      ensures this.x == x && this.y == y && this.l == l && this.w == w
    {
      this.x := x;
      this.y := y;
      this.l := l;
      this.w := w;
    }
  }

  /** The decimal renderings of xs separated by single spaces. */
  function Join(xs: seq<int>): (s: string)
  {
    if xs == [] then ""
    else if |xs| == 1 then DecimalString(xs[0])
    else DecimalString(xs[0]) + " " + Join(xs[1..])
  }

  /** Each element's rendering followed by one space: the text the loop has built after `<`. */
  function Spaced(xs: seq<int>): string
  {
    if xs == [] then "" else Spaced(xs[..|xs| - 1]) + DecimalString(xs[|xs| - 1]) + " "
  }

  /** The total number of characters in the renderings of xs. */
  function RenderedWidth(xs: seq<int>): nat
  {
    if xs == [] then 0 else |DecimalString(xs[0])| + RenderedWidth(xs[1..])
  }

  lemma {:induction false} SpacedIsJoinPlusSpace(xs: seq<int>)
    requires xs != []
    ensures Spaced(xs) == Join(xs) + " "
  {
    if |xs| > 1 {
      var init := xs[..|xs| - 1];
      SpacedIsJoinPlusSpace(init);
      JoinSnoc(init, xs[|xs| - 1]);
      assert init + [xs[|xs| - 1]] == xs;
    }
  }

  lemma {:induction false} JoinSnoc(xs: seq<int>, x: int)
    requires xs != []
    ensures Join(xs + [x]) == Join(xs) + " " + DecimalString(x)
  {
    var ys := xs + [x];
    if |xs| > 1 {
      assert ys[0] == xs[0] && ys[1..] == xs[1..] + [x];
      JoinSnoc(xs[1..], x);
      calc {
        Join(ys);
        DecimalString(xs[0]) + " " + Join(xs[1..] + [x]);
        DecimalString(xs[0]) + " " + (Join(xs[1..]) + " " + DecimalString(x));
        (DecimalString(xs[0]) + " " + Join(xs[1..])) + " " + DecimalString(x);
      }
    } else {
      assert ys[1..] == [x];
    }
  }

  lemma {:induction false} JoinLength(xs: seq<int>)
    requires xs != []
    ensures |Join(xs)| == RenderedWidth(xs) + |xs| - 1
  {
    if |xs| > 1 {
      JoinLength(xs[1..]);
    }
  }

  /** containerToString: `<`, every element's rendering followed by a space, then the last
      character is dropped and `>` appended. */
  method ContainerToString(c: seq<int>) returns (s: string)
    ensures c != [] ==> s == "<" + Join(c) + ">"
    ensures c == [] ==> s == ">"
    ensures |c| == 1 ==> s == "<" + DecimalString(c[0]) + ">"
    ensures c != [] ==> |s| == 2 + RenderedWidth(c) + |c| - 1
  {
    var str := "<";
    for k := 0 to |c|
      invariant str == "<" + Spaced(c[..k])
    {
      assert c[..k + 1][..k] == c[..k];
      str := str + DecimalString(c[k]) + " ";
    }
    assert c[..|c|] == c;
    str := str[..|str| - 1];
    str := str + ">";
    if c != [] {
      SpacedIsJoinPlusSpace(c);
      JoinLength(c);
      assert |c| == 1 ==> Join(c) == DecimalString(c[0]);
    }
    s := str;
  }
}
