/** strings.Fields, strings.Join with a blank, and a rune-wise strings.ToLower, over any notion
    of white space and of lower case. */
module Words {

  /** The length of the leading run of s without white space. */
  function WordLength(s: string, blank: char -> bool): (k: nat)
    ensures k <= |s| && (forall i :: 0 <= i < k ==> !blank(s[i]))
    ensures k < |s| ==> blank(s[k])
  {
    if s == "" || blank(s[0]) then 0
    else
      var k := 1 + WordLength(s[1..], blank);
      assert forall i :: 1 <= i < k ==> s[i] == s[1..][i - 1];
      k
  }

  function Fields(s: string, blank: char -> bool): seq<string>
    decreases |s|
  {
    if s == "" then []
    else if blank(s[0]) then Fields(s[1..], blank)
    else
      var k := WordLength(s, blank);
      [s[..k]] + Fields(s[k..], blank)
  }

  function Join(ws: seq<string>): string {
    if |ws| == 0 then "" else if |ws| == 1 then ws[0] else ws[0] + " " + Join(ws[1..])
  }

  function Lower(s: string, lower: char -> char): string {
    seq(|s|, i requires 0 <= i < |s| => lower(s[i]))
  }

  predicate Word(w: string, blank: char -> bool) {
    w != "" && forall i :: 0 <= i < |w| ==> !blank(w[i])
  }

  lemma {:induction false} WordLengthConcat(w: string, rest: string, blank: char -> bool)
    requires forall i :: 0 <= i < |w| ==> !blank(w[i])
    requires rest == "" || blank(rest[0])
    ensures WordLength(w + rest, blank) == |w|
  {
    if w == "" {
      assert w + rest == rest;
    } else {
      assert (w + rest)[1..] == w[1..] + rest;
      WordLengthConcat(w[1..], rest, blank);
    }
  }

  /** Splitting undoes joining. */
  lemma {:induction false} FieldsOfJoin(ws: seq<string>, blank: char -> bool)
    requires blank(' ') && forall i :: 0 <= i < |ws| ==> Word(ws[i], blank)
    ensures Fields(Join(ws), blank) == ws
  {
    if |ws| > 0 {
      var w, s := ws[0], Join(ws);
      var rest := if |ws| == 1 then "" else " " + Join(ws[1..]);
      assert s == w + rest;
      WordLengthConcat(w, rest, blank);
      assert s[..|w|] == w && s[|w|..] == rest;
      FieldsOfJoin(ws[1..], blank);
      if |ws| > 1 {
        assert rest[1..] == Join(ws[1..]);
      }
    }
  }

  lemma LowerConcat(a: string, b: string, lower: char -> char)
    ensures Lower(a + b, lower) == Lower(a, lower) + Lower(b, lower)
  {
  }

  lemma {:induction false} LowerOfJoin(ws: seq<string>, lower: char -> char)
    requires lower(' ') == ' ' && forall i :: 0 <= i < |ws| ==> Lower(ws[i], lower) == ws[i]
    ensures Lower(Join(ws), lower) == Join(ws)
  {
    if |ws| > 1 {
      LowerOfJoin(ws[1..], lower);
      LowerConcat(ws[0] + " ", Join(ws[1..]), lower);
      LowerConcat(ws[0], " ", lower);
      assert Lower(" ", lower) == " ";
    }
  }
}
