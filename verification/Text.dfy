// Lines, fields and numbers of the text format that foma_net_print writes and
// io_net_read reads (io.c).

module Text {

  // ---- Numbers ----

  function Digit(d: int): char
    requires 0 <= d < 10
  {
    ['0', '1', '2', '3', '4', '5', '6', '7', '8', '9'][d]
  }

  function Decimal(n: nat): (s: string)
    ensures s != [] && forall i :: 0 <= i < |s| ==> '0' <= s[i] <= '9'
  {
    if n < 10 then [Digit(n)] else Decimal(n / 10) + [Digit(n % 10)]
  }

  // "%i".
  function Itoa(n: int): (s: string)
    ensures s != [] && (forall i :: 0 <= i < |s| ==> s[i] == '-' || '0' <= s[i] <= '9')
  {
    if n < 0 then "-" + Decimal(-n) else Decimal(n)
  }

  // The digits a text begins with, after those of value n.
  function DigitsFrom(s: string, n: nat): nat {
    if s == "" || !('0' <= s[0] <= '9') then n else DigitsFrom(s[1..], n * 10 + (s[0] as int - '0' as int))
  }

  function Atoi(s: string): int {
    if s != "" && s[0] == '-' then 0 - DigitsFrom(s[1..], 0) else DigitsFrom(s, 0)
  }

  lemma {:induction false} DigitsSnoc(s: string, d: int, n: nat)
    requires (forall i :: 0 <= i < |s| ==> '0' <= s[i] <= '9') && 0 <= d < 10
    ensures DigitsFrom(s + [Digit(d)], n) == DigitsFrom(s, n) * 10 + d
    decreases s
  {
    if s == "" {
      assert s + [Digit(d)] == [Digit(d)];
      assert [Digit(d)][1..] == "";
      assert DigitsFrom([Digit(d)], n) == DigitsFrom("", n * 10 + d);
    } else {
      assert (s + [Digit(d)])[1..] == s[1..] + [Digit(d)];
      DigitsSnoc(s[1..], d, n * 10 + (s[0] as int - '0' as int));
    }
  }

  lemma {:induction false} DecimalBack(n: nat)
    ensures DigitsFrom(Decimal(n), 0) == n
  {
    if n < 10 {
      assert [Digit(n)][1..] == "";
      assert DigitsFrom([Digit(n)], 0) == DigitsFrom("", n);
    } else {
      DecimalBack(n / 10);
      DigitsSnoc(Decimal(n / 10), n % 10, 0);
    }
  }

  // Numbers come back.
  lemma AtoiItoa(n: int)
    ensures Atoi(Itoa(n)) == n
  {
    if n < 0 {
      DecimalBack(-n);
      assert ("-" + Decimal(-n))[1..] == Decimal(-n);
    } else {
      DecimalBack(n);
      assert Decimal(n)[0] != '-';
    }
  }

  // ---- Fields ----

  ghost predicate Without(s: string, c: char) {
    forall i :: 0 <= i < |s| ==> s[i] != c
  }

  function IndexOf(s: string, c: char): (k: nat)
    ensures k <= |s| && (forall i :: 0 <= i < k ==> s[i] != c) && (k < |s| ==> s[k] == c)
  {
    if s == "" || s[0] == c then 0 else IndexOf(s[1..], c) + 1
  }

  lemma {:induction false} IndexIs(a: string, c: char, b: string)
    requires Without(a, c)
    ensures IndexOf(a + [c] + b, c) == |a| && IndexOf(a, c) == |a|
    decreases a
  {
    if a != "" {
      assert (a + [c] + b)[1..] == a[1..] + [c] + b;
      IndexIs(a[1..], c, b);
    }
  }

  // What lies between the spaces.
  function Fields(s: string): (f: seq<string>)
    ensures f != []
    decreases |s|
  {
    var k := IndexOf(s, ' ');
    if k == |s| then [s] else [s[..k]] + Fields(s[k + 1..])
  }

  function Joined(f: seq<string>): string {
    if f == [] then "" else if |f| == 1 then f[0] else f[0] + " " + Joined(f[1..])
  }

  lemma {:induction false} FieldsJoined(f: seq<string>)
    requires f != [] && forall i :: 0 <= i < |f| ==> Without(f[i], ' ')
    ensures Fields(Joined(f)) == f
    decreases f
  {
    if |f| == 1 {
      IndexIs(f[0], ' ', "");
    } else {
      var rest := Joined(f[1..]);
      IndexIs(f[0], ' ', rest);
      FieldsJoined(f[1..]);
      var s := f[0] + " " + rest;
      assert s[..|f[0]|] == f[0] && s[|f[0]| + 1..] == rest;
    }
  }

  // ---- Words ----

  predicate Space(c: char) {
    c == ' ' || c == '\t' || c == '\n' || c == '\U{000b}' || c == '\U{000c}' || c == '\r'
  }

  predicate OneWord(s: string) {
    s != "" && forall i :: 0 <= i < |s| ==> !Space(s[i])
  }

  function WordEnd(s: string): (k: nat)
    ensures k <= |s| && (k < |s| ==> Space(s[k])) && forall i :: 0 <= i < k ==> !Space(s[i])
  {
    if s == "" || Space(s[0]) then 0 else WordEnd(s[1..]) + 1
  }

  // What sscanf reads one after the other: runs of anything but white space.
  function Words(s: string): (w: seq<string>)
    ensures forall i :: 0 <= i < |w| ==> OneWord(w[i])
    decreases |s|
  {
    if s == "" then []
    else if Space(s[0]) then Words(s[1..])
    else [s[..WordEnd(s)]] + Words(s[WordEnd(s)..])
  }

  lemma {:induction false} WordEndIs(a: string, b: string)
    requires OneWord(a) && (b == "" || Space(b[0]))
    ensures WordEnd(a + b) == |a|
    decreases a
  {
    if |a| == 1 {
      assert (a + b)[1..] == b;
    } else {
      assert (a + b)[1..] == a[1..] + b;
      WordEndIs(a[1..], b);
    }
  }

  lemma WordsNext(a: string, rest: string)
    requires OneWord(a)
    ensures Words(a + " " + rest) == [a] + Words(rest)
  {
    var s := a + (" " + rest);
    assert a + " " + rest == s;
    WordEndIs(a, " " + rest);
    assert s[..|a|] == a && s[|a|..] == " " + rest && (" " + rest)[1..] == rest;
  }

  // Words with a space after each come back, whatever follows.
  lemma {:induction false} WordsJoined(f: seq<string>, more: string)
    requires forall i :: 0 <= i < |f| ==> OneWord(f[i])
    ensures Words(Joined(f + [more])) == f + Words(more)
    decreases f
  {
    hide Words, OneWord;
    if f == [] {
      assert f + [more] == [more];
    } else {
      assert (f + [more])[1..] == f[1..] + [more];
      WordsJoined(f[1..], more);
      WordsNext(f[0], Joined(f[1..] + [more]));
      assert f == [f[0]] + f[1..];
    }
  }

  // A text is its own only word exactly when it is one word.
  lemma OnlyWord(s: string)
    ensures (Words(s) != [] && Words(s)[0] == s) <==> OneWord(s)
  {
    if OneWord(s) {
      WordEndIs(s, "");
      assert s + "" == s && s[..|s|] == s;
    }
  }

  function Numbers(f: seq<string>): (r: seq<int>)
    ensures |r| == |f| && forall i :: 0 <= i < |f| ==> r[i] == Atoi(f[i])
  {
    seq(|f|, i requires 0 <= i < |f| => Atoi(f[i]))
  }

  function Row(values: seq<int>): string {
    Joined(seq(|values|, i requires 0 <= i < |values| => Itoa(values[i])))
  }

  // A line of numbers comes back.
  lemma RowBack(values: seq<int>)
    requires values != []
    ensures Numbers(Fields(Row(values))) == values
  {
    var f := seq(|values|, i requires 0 <= i < |values| => Itoa(values[i]));
    FieldsJoined(f);
    forall i | 0 <= i < |values| ensures Atoi(f[i]) == values[i] {
      AtoiItoa(values[i]);
    }
  }

  lemma {:induction false} JoinedWithout(f: seq<string>, c: char)
    requires c != ' ' && forall i :: 0 <= i < |f| ==> Without(f[i], c)
    ensures Without(Joined(f), c)
    decreases f
  {
    if |f| > 1 {
      JoinedWithout(f[1..], c);
    }
  }

  // No newline and no # in a line of numbers.
  lemma RowPlain(values: seq<int>)
    requires values != []
    ensures Without(Row(values), '\n') && Row(values) != "" && Row(values)[0] != '#'
  {
    var f := seq(|values|, i requires 0 <= i < |values| => Itoa(values[i]));
    JoinedWithout(f, '\n');
    JoinedWithout(f, '#');
    assert f[0] == Itoa(values[0]) && f[0] != "";
  }

  // ---- Lines ----

  function Lines(lines: seq<string>): string {
    if lines == [] then "" else lines[0] + "\n" + Lines(lines[1..])
  }

  lemma {:induction false} LinesConcat(a: seq<string>, b: seq<string>)
    ensures Lines(a + b) == Lines(a) + Lines(b)
    decreases a
  {
    if a == [] {
      assert a + b == b;
    } else {
      assert (a + b)[1..] == a[1..] + b;
      LinesConcat(a[1..], b);
    }
  }

  // explode_line: the numbers of a line, read in one pass.
  method ExplodeLine(buf: string) returns (values: seq<int>)
    ensures values == Numbers(Fields(buf))
  {
    hide Fields, Numbers, Atoi;
    values := [];
    var i, j := 0, 0;
    ghost var total := Numbers(Fields(buf));
    assert buf[0..] == buf;
    while true
      invariant i == j <= |buf| && values + Numbers(Fields(buf[i..])) == total
      decreases |buf| - j
    {
      while j < |buf| && buf[j] != ' '
        invariant i <= j <= |buf| && forall k :: i <= k < j ==> buf[k] != ' '
      {
        j := j + 1;
      }
      FieldEnds(buf, i, j);
      var item := Atoi(buf[i..j]);
      if j == |buf| {
        values := values + [item];
        return;
      }
      assert values + ([item] + Numbers(Fields(buf[j + 1..]))) == values + [item] + Numbers(Fields(buf[j + 1..]));
      values := values + [item];
      j := j + 1;
      i := j;
    }
  }

  lemma FieldEnds(buf: string, i: nat, j: nat)
    requires i <= j <= |buf| && Without(buf[i..j], ' ') && (j < |buf| ==> buf[j] == ' ')
    ensures Numbers(Fields(buf[i..])) == if j == |buf| then [Atoi(buf[i..j])]
                                                            else [Atoi(buf[i..j])] + Numbers(Fields(buf[j + 1..]))
  {
    var s := buf[i..];
    if j == |buf| {
      assert buf[i..j] == s;
      IndexIs(s, ' ', "");
      assert Fields(s) == [s];
    } else {
      assert s == buf[i..j] + [' '] + buf[j + 1..];
      IndexIs(buf[i..j], ' ', buf[j + 1..]);
      assert s[..j - i] == buf[i..j] && s[j - i + 1..] == buf[j + 1..];
      assert Fields(s) == [buf[i..j]] + Fields(buf[j + 1..]);
    }
  }
}
