/** The strings that stand for stretches of tokens: table keys, and the rows an alignment shows. */
module Joining {
  import opened Sequences

  function JoinAll(ws: seq<string>, delimiter: string): string
  {
    if ws == [] then "" else JoinAll(Init(ws), delimiter) + Last(ws) + delimiter
  }

  /** Tokens of a nonempty stretch with a delimiter between them. */
  function Join(ws: seq<string>, delimiter: string): (s: string)
  {
    var s := JoinAll(ws, delimiter);
    if |delimiter| <= |s| then s[..|s| - |delimiter|] else s
  }

  /** Key of the stretch of n tokens that ends at position e; null when it is empty. */
  function Key(ws: seq<string>, e: nat, n: nat, nullChar: string): string
    requires n <= e <= |ws|
  {
    if n == 0 then nullChar else Join(ws[e - n..e], "")
  }

  lemma {:induction false} JoinAllConcat(a: seq<string>, b: seq<string>, delimiter: string)
    ensures JoinAll(a + b, delimiter) == JoinAll(a, delimiter) + JoinAll(b, delimiter)
  {
    if b == [] {
      assert a + b == a;
    } else {
      JoinAllConcat(a, Init(b), delimiter);
      SnocOfConcat(a, b);
      Associates(JoinAll(a, delimiter), JoinAll(Init(b), delimiter), Last(b), delimiter);
    }
  }

  lemma SnocOfConcat<T>(a: seq<T>, b: seq<T>)
    requires b != []
    ensures a + b != [] && Init(a + b) == a + Init(b) && Last(a + b) == Last(b)
  {
  }

  lemma Associates(a: string, b: string, c: string, d: string)
    ensures a + b + c + d == a + (b + c + d)
  {
  }

  lemma JoinEnds(ws: seq<string>, delimiter: string)
    requires ws != []
    ensures JoinAll(ws, delimiter) == Join(ws, delimiter) + delimiter
  {
    var s := JoinAll(ws, delimiter);
    var front := JoinAll(Init(ws), delimiter) + Last(ws);
    assert s == front + delimiter;
    assert |front| == |s| - |delimiter| && s[..|front|] == front;
  }

  lemma JoinOne(w: string, delimiter: string)
    ensures Join([w], delimiter) == w
  {
    assert Init([w]) == [] && JoinAll([], delimiter) == "";
    JoinEnds([w], delimiter);
    var s := Join([w], delimiter);
    assert (s + delimiter)[..|s|] == s && (w + delimiter)[..|w|] == w;
  }

  /** Joining puts the tokens in their order, with one delimiter between neighbours. */
  lemma JoinSplits(a: seq<string>, b: seq<string>, delimiter: string)
    requires a != [] && b != []
    ensures Join(a + b, delimiter) == Join(a, delimiter) + delimiter + Join(b, delimiter)
  {
    JoinAllConcat(a, b, delimiter);
    JoinEnds(a, delimiter);
    JoinEnds(b, delimiter);
    JoinEnds(a + b, delimiter);
    var s, t := Join(a + b, delimiter), Join(a, delimiter) + delimiter + Join(b, delimiter);
    assert s + delimiter == t + delimiter;
    assert (s + delimiter)[..|s|] == s && (t + delimiter)[..|t|] == t;
  }

  /** The key of an empty stretch is the null symbol, that of one token the token. */
  lemma KeyStarts(ws: seq<string>, e: nat, nullChar: string)
    requires e <= |ws|
    ensures Key(ws, e, 0, nullChar) == nullChar
    ensures e > 0 ==> Key(ws, e, 1, nullChar) == ws[e - 1]
  {
    if e > 0 {
      assert ws[e - 1..e] == [ws[e - 1]];
      JoinOne(ws[e - 1], "");
    }
  }

  /** The key of a longer stretch is the keys of its parts, in order. */
  lemma KeySplits(ws: seq<string>, e: nat, m: nat, n: nat, nullChar: string)
    requires m > 0 && n > 0 && m + n <= e <= |ws|
    ensures Key(ws, e, m + n, nullChar) == Key(ws, e - n, m, nullChar) + Key(ws, e, n, nullChar)
  {
    var a, b := ws[e - n - m..e - n], ws[e - n..e];
    assert ws[e - (m + n)..e] == a + b;
    JoinSplits(a, b, "");
  }
}
