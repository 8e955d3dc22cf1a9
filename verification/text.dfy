/** Decimal numbers and separated fields, as cursors and file names write them. */
module Text {
  import opened Chain

  const MAX_UINT64 := 0x1_0000_0000_0000_0000
  const MAX_UINT32 := 0x1_0000_0000

  predicate IsDigit(c: char) { '0' <= c <= '9' }

  function Digit(d: nat): (c: char)
    requires d < 10
    ensures IsDigit(c)
  {
    ('0' as int + d) as char
  }

  /** `%d` */
  function Print(n: nat): string {
    if n < 10 then [Digit(n)] else Print(n / 10) + [Digit(n % 10)]
  }

  /** `%0wd`: filled up with zeros on the left. */
  function Padded(n: nat, width: nat): string {
    var s := Print(n);
    if |s| < width then Zeros(width - |s|) + s else s
  }

  function Zeros(n: nat): (s: string)
    ensures |s| == n && forall i | 0 <= i < n :: s[i] == '0'
  {
    seq(n, i => '0')
  }

  function Value(s: string): Option<nat> {
    if s == "" then Some(0)
    else
      var c := s[|s| - 1];
      match Value(s[..|s| - 1])
      case None => None
      case Some(v) => if IsDigit(c) then Some(10 * v + (c as int - '0' as int)) else None
  }

  /** Only digits, at least one, and a value below `limit`. */
  function ParseUint(s: string, limit: nat): Option<nat> {
    match Value(s)
    case None => None
    case Some(v) => if s != "" && v < limit then Some(v) else None
  }

  lemma {:induction false} PrintIsRead(n: nat)
    ensures Value(Print(n)) == Some(n) && Print(n) != "" && forall i | 0 <= i < |Print(n)| :: IsDigit(Print(n)[i])
    decreases n
  {
    if n >= 10 {
      PrintIsRead(n / 10);
      var s := Print(n);
      assert s[..|s| - 1] == Print(n / 10);
    }
  }

  lemma {:induction false} ZerosInFront(k: nat, s: string)
    ensures Value(Zeros(k) + s) == Value(s)
    decreases k + |s|
  {
    var t := Zeros(k) + s;
    if s != "" {
      assert t[..|t| - 1] == Zeros(k) + s[..|s| - 1];
      ZerosInFront(k, s[..|s| - 1]);
    } else if k > 0 {
      assert t[..|t| - 1] == Zeros(k - 1) + "";
      ZerosInFront(k - 1, "");
    }
  }

  lemma PaddedIsRead(n: nat, width: nat)
    ensures Value(Padded(n, width)) == Some(n) && Padded(n, width) != ""
    ensures forall i | 0 <= i < |Padded(n, width)| :: IsDigit(Padded(n, width)[i])
  {
    PrintIsRead(n);
    if |Print(n)| < width {
      ZerosInFront(width - |Print(n)|, Print(n));
    }
  }

  // Fields

  function Split(s: string, sep: char): (r: seq<string>)
    ensures |r| > 0
  {
    if s == "" then [""]
    else
      var rest := Split(s[1..], sep);
      if s[0] == sep then [""] + rest else [[s[0]] + rest[0]] + rest[1..]
  }

  function Join(parts: seq<string>, sep: char): string
    requires parts != []
  {
    if |parts| == 1 then parts[0] else parts[0] + [sep] + Join(parts[1..], sep)
  }

  function Count(s: string, sep: char): nat {
    if s == "" then 0 else (if s[0] == sep then 1 else 0) + Count(s[1..], sep)
  }

  function CountAll(parts: seq<string>, sep: char): nat {
    if parts == [] then 0 else Count(parts[0], sep) + CountAll(parts[1..], sep)
  }

  lemma {:induction false} SplitFront(a: string, s: string, sep: char)
    requires sep !in a
    ensures Split(a + [sep] + s, sep) == [a] + Split(s, sep)
    ensures Split(a, sep) == [a]
    decreases |a|
  {
    var t := a + [sep] + s;
    if a == "" {
      assert t[1..] == s;
    } else {
      SplitFront(a[1..], s, sep);
      assert t[1..] == a[1..] + [sep] + s;
      assert [a[0]] + a[1..] == a;
    }
  }

  /** Fields without the separator come back. */
  lemma {:induction false} SplitJoin(parts: seq<string>, sep: char)
    requires parts != [] && forall p <- parts :: sep !in p
    ensures Split(Join(parts, sep), sep) == parts
    decreases |parts|
  {
    if |parts| == 1 {
      SplitFront(parts[0], "", sep);
    } else {
      SplitJoin(parts[1..], sep);
      SplitFront(parts[0], Join(parts[1..], sep), sep);
    }
  }

  lemma {:induction false} SplitCount(s: string, sep: char)
    ensures |Split(s, sep)| == 1 + Count(s, sep)
    decreases |s|
  {
    if s != "" {
      SplitCount(s[1..], sep);
    }
  }

  lemma {:induction false} CountConcat(a: string, b: string, sep: char)
    ensures Count(a + b, sep) == Count(a, sep) + Count(b, sep)
    decreases |a|
  {
    if a == "" {
      assert a + b == b;
    } else {
      CountConcat(a[1..], b, sep);
      assert (a + b)[1..] == a[1..] + b;
    }
  }

  /** Every separator inside a field makes one more field. */
  lemma {:induction false} JoinCount(parts: seq<string>, sep: char)
    requires parts != []
    ensures |Split(Join(parts, sep), sep)| == |parts| + CountAll(parts, sep)
    decreases |parts|
  {
    if |parts| == 1 {
      SplitCount(parts[0], sep);
      assert parts[1..] == [];
    } else {
      var rest := Join(parts[1..], sep);
      JoinCount(parts[1..], sep);
      SplitCount(rest, sep);
      SplitCount(parts[0] + [sep] + rest, sep);
      CountConcat(parts[0] + [sep], rest, sep);
      CountConcat(parts[0], [sep], sep);
      assert Count([sep], sep) == 1;
    }
  }

  lemma {:induction false} CountZero(s: string, sep: char)
    ensures Count(s, sep) == 0 <==> sep !in s
    decreases |s|
  {
    if s != "" {
      CountZero(s[1..], sep);
      assert s == [s[0]] + s[1..];
    }
  }

  lemma {:induction false} CountAllZero(parts: seq<string>, sep: char)
    ensures CountAll(parts, sep) == 0 <==> forall p <- parts :: sep !in p
    decreases |parts|
  {
    if parts != [] {
      CountAllZero(parts[1..], sep);
      CountZero(parts[0], sep);
      assert parts == [parts[0]] + parts[1..];
    }
  }
}
