/** Parsing a comma-separated string into a list of pieces, and into a list
    of integers: the input is stripped of surrounding whitespace, split at
    every comma, and (for the integer list) each piece read as a decimal
    integer literal.
 */
module CommaLists {

  datatype Option<T> = None | Some(value: T)

  /** The characters Python's `str.isspace` accepts, which `str.strip()`
      with no argument removes. */
  predicate IsSpace(c: char)
  {
    ('\t' <= c <= '\r') || ('\U{1C}' <= c <= '\U{1F}') || c == ' ' ||
    c == '\U{85}' || c == '\U{A0}' || c == '\U{1680}' ||
    ('\U{2000}' <= c <= '\U{200A}') || c == '\U{2028}' || c == '\U{2029}' ||
    c == '\U{202F}' || c == '\U{205F}' || c == '\U{3000}'
  }

  /** `s` without its leading whitespace. */
  function TrimStart(s: string): (r: string)
    ensures |r| <= |s| && r == s[|s| - |r|..]
    ensures r == [] || !IsSpace(r[0])
    ensures forall i :: 0 <= i < |s| - |r| ==> IsSpace(s[i])
  {
    if s != [] && IsSpace(s[0]) then TrimStart(s[1..]) else s
  }

  /** `s` without its trailing whitespace. */
  function TrimEnd(s: string): (r: string)
    ensures |r| <= |s| && r == s[..|r|]
    ensures r == [] || !IsSpace(r[|r| - 1])
    ensures forall i :: |r| <= i < |s| ==> IsSpace(s[i])
  {
    if s != [] && IsSpace(s[|s| - 1]) then TrimEnd(s[..|s| - 1]) else s
  }

  /** `str.strip()`: the part of `s` between its leading and its trailing
      whitespace; the result neither starts nor ends with whitespace. */
  function Strip(s: string): (r: string)
    ensures |r| <= |s|
    ensures r == [] || (!IsSpace(r[0]) && !IsSpace(r[|r| - 1]))
  {
    TrimEnd(TrimStart(s))
  }

  /** `r` is the slice of `s` that starts at `lead`, and everything of `s`
      before and after that slice is whitespace. */
  ghost predicate SpaceAround(s: string, lead: int, r: string)
  {
    0 <= lead && lead + |r| <= |s| &&
    (forall i :: 0 <= i < lead ==> IsSpace(s[i])) &&
    (forall i :: lead <= i < lead + |r| ==> s[i] == r[i - lead]) &&
    (forall i :: lead + |r| <= i < |s| ==> IsSpace(s[i]))
  }

  /** Strip removes only whitespace: its result is a slice of `s`, and
      everything before and after that slice is whitespace. */
  lemma {:induction false} StripRemovesOnlySpace(s: string)
    ensures SpaceAround(s, |s| - |TrimStart(s)|, Strip(s))
  {
    TrimmedSlice(s, TrimStart(s), Strip(s));
  }

  /** Dropping whitespace from the front of `s` (giving `rest`) and then
      from the back of `rest` (giving `r`) leaves a slice of `s` with only
      whitespace around it. */
  lemma {:induction false} TrimmedSlice(s: string, rest: string, r: string)
    requires |rest| <= |s| && rest == s[|s| - |rest|..]
    requires forall i :: 0 <= i < |s| - |rest| ==> IsSpace(s[i])
    requires |r| <= |rest| && r == rest[..|r|]
    requires forall i :: |r| <= i < |rest| ==> IsSpace(rest[i])
    ensures SpaceAround(s, |s| - |rest|, r)
  {
    var lead := |s| - |rest|;
    forall i | lead <= i < lead + |r|
      ensures s[i] == r[i - lead]
    {
      assert r[i - lead] == rest[i - lead];
    }
    forall i | lead + |r| <= i < |s|
      ensures IsSpace(s[i])
    {
      assert s[i] == rest[i - lead];
    }
  }

  /** A string that neither starts nor ends with whitespace is its own
      strip; in particular stripping twice is stripping once. */
  lemma {:induction false} StripUnchanged(s: string)
    requires s == [] || (!IsSpace(s[0]) && !IsSpace(s[|s| - 1]))
    ensures Strip(s) == s
  {
  }

  lemma {:induction false} StripIdempotent(s: string)
    ensures Strip(Strip(s)) == Strip(s)
  {
    StripUnchanged(Strip(s));
  }

  /** `str.split(',')`: the pieces between the commas, in order. There is
      always at least one piece, and no piece holds a comma. */
  function Split(s: string): (r: seq<string>)
    ensures |r| >= 1
    ensures forall i :: 0 <= i < |r| ==> ',' !in r[i]
    decreases |s|
  {
    if s == [] then [""]
    else
      var rest := Split(s[1..]);
      if s[0] == ',' then [""] + rest
      else [[s[0]] + rest[0]] + rest[1..]
  }

  /** `','.join(pieces)`. */
  function Join(pieces: seq<string>): string
  {
    if |pieces| == 0 then ""
    else if |pieces| == 1 then pieces[0]
    else pieces[0] + "," + Join(pieces[1..])
  }

  /** The number of commas in `s`. */
  function Commas(s: string): nat
  {
    if s == [] then 0 else (if s[0] == ',' then 1 else 0) + Commas(s[1..])
  }

  /** Putting a character in front of the first piece puts it in front of
      the joined string. */
  lemma {:induction false} JoinExtendFirst(c: char, pieces: seq<string>)
    requires |pieces| >= 1
    ensures Join([[c] + pieces[0]] + pieces[1..]) == [c] + Join(pieces)
  {
    var ext := [[c] + pieces[0]] + pieces[1..];
    if |pieces| == 1 {
      assert ext == [[c] + pieces[0]];
    } else {
      var rest := Join(pieces[1..]);
      assert Join(ext) == ([c] + pieces[0]) + "," + rest by {
        assert |ext| > 1 && ext[0] == [c] + pieces[0] && ext[1..] == pieces[1..];
      }
      assert Join(pieces) == pieces[0] + "," + rest;
      assert ([c] + pieces[0]) + "," + rest == [c] + (pieces[0] + "," + rest);
    }
  }

  /** Joining the pieces of a split gives back the string that was split. */
  lemma {:induction false} JoinSplit(s: string)
    ensures Join(Split(s)) == s
    decreases |s|
  {
    if s != [] {
      var rest := Split(s[1..]);
      JoinSplit(s[1..]);
      if s[0] == ',' {
        assert ([""] + rest)[1..] == rest;
        assert Join([""] + rest) == "" + "," + Join(rest);
      } else {
        JoinExtendFirst(s[0], rest);
      }
      assert s == [s[0]] + s[1..];
    }
  }

  /** A split yields one more piece than there are commas. */
  lemma {:induction false} SplitLength(s: string)
    ensures |Split(s)| == Commas(s) + 1
    decreases |s|
  {
    if s != [] {
      SplitLength(s[1..]);
    }
  }

  /** Splitting a comma-free prefix followed by more text: the prefix is
      glued to the front of the first piece of the rest. */
  lemma {:induction false} SplitCommaFreePrefix(p: string, s: string)
    requires ',' !in p
    ensures Split(p + s) == [p + Split(s)[0]] + Split(s)[1..]
    decreases |p|
  {
    if p != [] {
      assert (p + s)[1..] == p[1..] + s;
      assert ',' !in p[1..] by {
        forall i | 0 <= i < |p[1..]| ensures p[1..][i] != ',' {
          assert p[1..][i] == p[i + 1];
        }
      }
      SplitCommaFreePrefix(p[1..], s);
      var rest := Split(p[1..] + s);
      assert [p[0]] + (p[1..] + Split(s)[0]) == p + Split(s)[0];
    } else {
      var r := Split(s);
      assert p + s == s;
      assert p + r[0] == r[0];
      assert [r[0]] + r[1..] == r;
    }
  }

  /** Splitting the join of comma-free pieces gives back the pieces. */
  lemma {:induction false} SplitJoin(pieces: seq<string>)
    requires |pieces| >= 1
    requires forall i :: 0 <= i < |pieces| ==> ',' !in pieces[i]
    ensures Split(Join(pieces)) == pieces
    decreases |pieces|
  {
    var p := pieces[0];
    if |pieces| == 1 {
      SplitCommaFreePrefix(p, "");
      assert p + "" == p;
    } else {
      var tail := pieces[1..];
      SplitJoin(tail);
      var rest := "," + Join(tail);
      assert Join(pieces) == p + rest;
      assert rest[1..] == Join(tail);
      assert Split(rest) == [""] + tail;
      SplitCommaFreePrefix(p, rest);
      assert p + "" == p;
      assert pieces == [p] + tail;
    }
  }

  /** A join starts with its first piece. */
  lemma {:induction false} JoinFirst(pieces: seq<string>)
    requires |pieces| >= 1 && pieces[0] != []
    ensures |Join(pieces)| > 0 && Join(pieces)[0] == pieces[0][0]
  {
  }

  /** A join ends with its last piece. */
  lemma {:induction false} JoinLast(pieces: seq<string>)
    requires |pieces| >= 1 && pieces[|pieces| - 1] != []
    ensures |Join(pieces)| > 0
    ensures Join(pieces)[|Join(pieces)| - 1] == pieces[|pieces| - 1][|pieces[|pieces| - 1]| - 1]
    decreases |pieces|
  {
    if |pieces| > 1 {
      JoinLast(pieces[1..]);
    }
  }

  /** ToyAPI's `CommaSeparatedList`: `values` is exposed as it is by
      indexing, iteration and length. */
  datatype CommaSeparatedList<T> = CommaSeparatedList(values: seq<T>)

  /** `CommaSeparatedList(s)`: the stripped input split at commas. */
  function FromString(s: string): (l: CommaSeparatedList<string>)
    ensures |l.values| == Commas(Strip(s)) + 1
    ensures Join(l.values) == Strip(s)
    ensures forall i :: 0 <= i < |l.values| ==> ',' !in l.values[i]
  {
    SplitLength(Strip(s));
    JoinSplit(Strip(s));
    CommaSeparatedList(Split(Strip(s)))
  }

  /** Empty or blank input gives the single empty piece. */
  lemma {:induction false} BlankInput(s: string)
    requires forall i :: 0 <= i < |s| ==> IsSpace(s[i])
    ensures FromString(s).values == [""]
  {
    StripRemovesOnlySpace(s);
  }

  /** `values[i]` with Python's indexing: a negative index counts from the
      end, and an index out of range is an IndexError (None here). */
  function GetItem<T>(l: CommaSeparatedList<T>, i: int): (r: Option<T>)
    ensures r.Some? <==> -|l.values| <= i < |l.values|
    ensures 0 <= i < |l.values| ==> r == Some(l.values[i])
  {
    if 0 <= i < |l.values| then Some(l.values[i])
    else if -|l.values| <= i < 0 then Some(l.values[|l.values| + i])
    else None
  }

  /** Each element is reached by two indices: its position and its position
      minus the length. */
  lemma {:induction false} NegativeIndex<T>(l: CommaSeparatedList<T>, i: int)
    requires 0 <= i < |l.values|
    ensures GetItem(l, i - |l.values|) == GetItem(l, i) == Some(l.values[i])
  {
  }

  predicate IsDigit(c: char)
  {
    '0' <= c <= '9'
  }

  function DigitValue(c: char): nat
    requires IsDigit(c)
  {
    (c as int) - ('0' as int)
  }

  /** The digits of an integer literal, single underscores allowed between
      two digits. */
  predicate IsDigitGroups(d: string)
  {
    |d| > 0 && IsDigit(d[0]) && IsDigit(d[|d| - 1]) &&
    (forall i :: 0 <= i < |d| ==> IsDigit(d[i]) || d[i] == '_') &&
    (forall i :: 0 <= i < |d| - 1 ==> d[i] == '_' ==> d[i + 1] != '_')
  }

  /** `d` without its underscores. */
  function WithoutUnderscores(d: string): (r: string)
    ensures (forall i :: 0 <= i < |d| ==> IsDigit(d[i]) || d[i] == '_') ==>
              forall j :: 0 <= j < |r| ==> IsDigit(r[j])
  {
    if d == [] then []
    else (if d[0] == '_' then [] else [d[0]]) + WithoutUnderscores(d[1..])
  }

  /** The number a string of decimal digits denotes. */
  function DecimalValue(ds: string): nat
    requires forall i :: 0 <= i < |ds| ==> IsDigit(ds[i])
  {
    if ds == [] then 0
    else DecimalValue(ds[..|ds| - 1]) * 10 + DigitValue(ds[|ds| - 1])
  }

  /** The value of the digit groups `d`, which must be well formed. */
  function GroupsValue(d: string): nat
    requires IsDigitGroups(d)
  {
    DecimalValue(WithoutUnderscores(d))
  }

  /** An optional sign followed by digit groups, read as an integer; None
      for anything else. */
  function ParseLiteral(t: string): (r: Option<int>)
    ensures t == [] ==> r == None
    ensures r.Some? ==> t[0] == '+' || t[0] == '-' || IsDigit(t[0])
    ensures r.Some? ==> IsDigit(t[|t| - 1]) && forall i :: 1 <= i < |t| ==> IsDigit(t[i]) || t[i] == '_'
    ensures r.Some? <==>
              IsDigitGroups(t) || (|t| > 0 && (t[0] == '+' || t[0] == '-') && IsDigitGroups(t[1..]))
  {
    if |t| > 0 && (t[0] == '+' || t[0] == '-') then
      if IsDigitGroups(t[1..]) then
        var magnitude: int := GroupsValue(t[1..]);
        Some(if t[0] == '-' then -magnitude else magnitude)
      else None
    else if IsDigitGroups(t) then Some(GroupsValue(t))
    else None
  }

  /** What a literal that reads as `n` looks like: a minus sign and digit
      groups worth `-n` when it starts with `-`, otherwise an optional `+`
      and digit groups worth `n`, which is then at least zero. */
  lemma {:induction false} ParseLiteralShape(t: string, n: int)
    requires ParseLiteral(t) == Some(n)
    ensures t[0] == '-' ==> n <= 0 && IsDigitGroups(t[1..]) && GroupsValue(t[1..]) == -n
    ensures t[0] == '+' ==> n >= 0 && IsDigitGroups(t[1..]) && GroupsValue(t[1..]) == n
    ensures IsDigit(t[0]) ==> n >= 0 && IsDigitGroups(t) && GroupsValue(t) == n
  {
    if t[0] == '+' || t[0] == '-' {
      assert IsDigitGroups(t[1..]);
    } else {
      assert IsDigitGroups(t);
    }
  }

  /** `int()` accepts an explicit plus sign. */
  lemma {:induction false} ParseLiteralPlus()
    ensures ParseLiteral("+5") == Some(5)
  {
    var five := "5";
    assert "+5"[1..] == five;
    assert IsDigitGroups(five);
    assert WithoutUnderscores(five) == five by { assert five[1..] == []; }
    assert DecimalValue(five) == 5 by { assert five[..0] == []; }
  }

  /** `int()` accepts an underscore between digits and drops it. */
  lemma {:induction false} ParseLiteralUnderscore()
    ensures ParseLiteral("1_0") == Some(10)
  {
    var ten, digits := "1_0", "10";
    assert IsDigitGroups(ten);
    assert WithoutUnderscores(ten) == digits by {
      assert ten[1..] == "_0" && "_0"[1..] == "0" && "0"[1..] == [];
    }
    assert DecimalValue(digits) == 10 by {
      assert digits[..1] == "1" && "1"[..0] == [];
    }
  }

  /** `int()` refuses a doubled underscore and a trailing one. */
  lemma {:induction false} ParseLiteralBadUnderscores()
    ensures ParseLiteral("1__0") == None
    ensures ParseLiteral("1_") == None
  {
  }

  /** The ASCII information separators U+001C to U+001F. `str.strip()`
      removes them, but `int()` does not skip them as whitespace. */
  predicate IsInfoSeparator(c: char)
  {
    '\U{1C}' <= c <= '\U{1F}'
  }

  /** `s` holds an information separator somewhere. */
  predicate HasInfoSeparator(s: string)
  {
    exists i :: 0 <= i < |s| && IsInfoSeparator(s[i])
  }

  /** `int(s)` on a piece. `int()` skips surrounding whitespace, which is
      every character `str.strip()` removes except the information
      separators; a piece holding one of those is a ValueError wherever it
      stands. The rest must be a literal; anything else is a ValueError
      (None here). */
  function ParseInt(s: string): (r: Option<int>)
    ensures Strip(s) == [] ==> r == None
    ensures HasInfoSeparator(s) ==> r == None
    ensures !HasInfoSeparator(s) ==> r == ParseLiteral(Strip(s))
  {
    if HasInfoSeparator(s) then None else ParseLiteral(Strip(s))
  }

  /** Surrounding whitespace other than the information separators does not
      change what a piece reads as. */
  lemma {:induction false} ParseIntIgnoresSpace(s: string)
    requires !HasInfoSeparator(s)
    ensures ParseInt(Strip(s)) == ParseInt(s)
  {
    var rest := TrimStart(s);
    SliceHasNoInfoSeparator(s, rest, TrimEnd(rest));
    StripIdempotent(s);
  }

  /** A slice of a string without information separators has none either. */
  lemma {:induction false} SliceHasNoInfoSeparator(s: string, rest: string, r: string)
    requires |rest| <= |s| && rest == s[|s| - |rest|..]
    requires |r| <= |rest| && r == rest[..|r|]
    requires !HasInfoSeparator(s)
    ensures !HasInfoSeparator(r)
  {
    forall i | 0 <= i < |r| ensures !IsInfoSeparator(r[i]) {
      assert r[i] == rest[i] == s[|s| - |rest| + i];
    }
  }

  /** An information separator in front of a number is removed by
      `str.strip()` but makes `int()` fail. */
  lemma {:induction false} InfoSeparatorNotSkipped()
    ensures Strip("\U{1C}5") == "5"
    ensures ParseInt("5") == Some(5)
    ensures ParseInt("\U{1C}5") == None
  {
    var d, e := "5", "\U{1C}5";
    assert !IsSpace(d[0]);
    assert TrimStart(d) == d && TrimEnd(d) == d;
    assert IsSpace(e[0]) && e[1..] == d;
    assert TrimStart(e) == d;
    assert IsInfoSeparator(e[0]);
    assert WithoutUnderscores(d) == d by {
      assert d[1..] == [];
    }
    assert DecimalValue(d) == 5 by {
      assert d[..0] == [];
    }
  }

  /** The decimal digits of `n`, most significant first. */
  function ShowNat(n: nat): (r: string)
    ensures |r| > 0
    ensures forall i :: 0 <= i < |r| ==> IsDigit(r[i])
  {
    var d := ['0' + ((n % 10) as char)];
    if n < 10 then d else ShowNat(n / 10) + d
  }

  /** The decimal literal of `n`, with a minus sign when negative. */
  function ShowInt(n: int): (r: string)
    ensures r != [] && ',' !in r
    ensures forall i :: 0 <= i < |r| ==> r[i] == '-' || IsDigit(r[i])
    ensures (r[0] == '-' || IsDigit(r[0])) && IsDigit(r[|r| - 1])
  {
    if n < 0 then "-" + ShowNat(-n) else ShowNat(n)
  }

  lemma {:induction false} DecimalValueShowNat(n: nat)
    ensures DecimalValue(ShowNat(n)) == n
  {
    var s := ShowNat(n);
    if n >= 10 {
      DecimalValueShowNat(n / 10);
      assert s[..|s| - 1] == ShowNat(n / 10);
    }
  }

  lemma {:induction false} WithoutUnderscoresOfDigits(ds: string)
    requires forall i :: 0 <= i < |ds| ==> IsDigit(ds[i])
    ensures WithoutUnderscores(ds) == ds
    decreases |ds|
  {
    if ds != [] {
      WithoutUnderscoresOfDigits(ds[1..]);
    }
  }

  /** The literal of a natural number is a well-formed digit string whose
      value is that number. */
  lemma {:induction false} ShowNatGroups(n: nat)
    ensures IsDigitGroups(ShowNat(n)) && GroupsValue(ShowNat(n)) == n
  {
    WithoutUnderscoresOfDigits(ShowNat(n));
    DecimalValueShowNat(n);
  }

  /** Reading back the literal of an integer gives that integer. */
  lemma {:induction false} ParseShowInt(n: int)
    ensures ParseInt(ShowInt(n)) == Some(n)
  {
    var s := ShowInt(n);
    SignOrDigitNotSpace(s[0]);
    SignOrDigitNotSpace(s[|s| - 1]);
    StripUnchanged(s);
    ShowIntHasNoInfoSeparator(n);
    ParseLiteralShowInt(n);
  }

  /** The literal of an integer holds no information separator. */
  lemma {:induction false} ShowIntHasNoInfoSeparator(n: int)
    ensures !HasInfoSeparator(ShowInt(n))
  {
    var s := ShowInt(n);
    forall i | 0 <= i < |s| ensures !IsInfoSeparator(s[i]) {
      assert s[i] == '-' || IsDigit(s[i]);
    }
  }

  /** The literal of an integer, as a literal, reads as that integer. */
  lemma {:induction false} ParseLiteralShowInt(n: int)
    ensures ParseLiteral(ShowInt(n)) == Some(n)
  {
    var s := ShowInt(n);
    var m: nat := if n < 0 then -n else n;
    var digits := ShowNat(m);
    ShowNatGroups(m);
    if n < 0 {
      assert s[1..] == digits;
      assert s[0] == '-';
    } else {
      assert s == digits;
      assert IsDigit(s[0]);
    }
  }

  /** The values of `opts` when every one of them is present, in order;
      None as soon as one is missing. */
  function AllPresent<T>(opts: seq<Option<T>>): (r: Option<seq<T>>)
    ensures r.Some? <==> forall i :: 0 <= i < |opts| ==> opts[i].Some?
    ensures r.Some? ==>
              |r.value| == |opts| &&
              forall i :: 0 <= i < |opts| ==> r.value[i] == opts[i].value
    decreases |opts|
  {
    if opts == [] then Some([])
    else if opts[0].None? then None
    else
      var tail := AllPresent(opts[1..]);
      if tail.None? then None else Some([opts[0].value] + tail.value)
  }

  /** `[int(x) for x in pieces]`: every piece must read as an integer, and
      then the integers come in the order of the pieces. */
  function ParseInts(pieces: seq<string>): (r: Option<seq<int>>)
    ensures r.Some? <==> forall i :: 0 <= i < |pieces| ==> ParseInt(pieces[i]).Some?
    ensures r.Some? ==>
              |r.value| == |pieces| &&
              forall i :: 0 <= i < |pieces| ==> r.value[i] == ParseInt(pieces[i]).value
  {
    var parsed := seq(|pieces|, i requires 0 <= i < |pieces| => ParseInt(pieces[i]));
    assert forall i :: 0 <= i < |pieces| ==> parsed[i] == ParseInt(pieces[i]);
    AllPresent(parsed)
  }

  /** `IntCommaSeparatedList(s)`: the pieces of `CommaSeparatedList(s)`
      read as integers, or None (a ValueError) when one of them is not an
      integer literal. */
  function IntFromString(s: string): (r: Option<CommaSeparatedList<int>>)
    ensures r.Some? <==>
              forall i :: 0 <= i < |FromString(s).values| ==> ParseInt(FromString(s).values[i]).Some?
    ensures r.Some? ==>
              |r.value.values| == |FromString(s).values| &&
              forall i :: 0 <= i < |FromString(s).values| ==>
                r.value.values[i] == ParseInt(FromString(s).values[i]).value
  {
    var ints := ParseInts(FromString(s).values);
    if ints.Some? then Some(CommaSeparatedList(ints.value)) else None
  }

  /** Empty or blank input is refused: its single piece is empty. */
  lemma {:induction false} BlankIntInput(s: string)
    requires forall i :: 0 <= i < |s| ==> IsSpace(s[i])
    ensures IntFromString(s) == None
  {
    BlankInput(s);
    assert ParseInt(FromString(s).values[0]) == None;
  }

  /** The literal of each integer of `xs`, in order. */
  function Literals(xs: seq<int>): (r: seq<string>)
    ensures |r| == |xs|
    ensures forall i :: 0 <= i < |xs| ==> r[i] == ShowInt(xs[i])
  {
    seq(|xs|, i requires 0 <= i < |xs| => ShowInt(xs[i]))
  }

  /** Joined literals neither start nor end with whitespace, so stripping
      leaves them alone. */
  lemma {:induction false} JoinedLiteralsUnstripped(xs: seq<int>)
    requires |xs| >= 1
    ensures Strip(Join(Literals(xs))) == Join(Literals(xs))
  {
    JoinedLiteralsFirst(xs);
    JoinedLiteralsLast(xs);
    StripUnchanged(Join(Literals(xs)));
  }

  /** A sign or a digit is not whitespace. */
  lemma {:induction false} SignOrDigitNotSpace(c: char)
    requires c == '-' || IsDigit(c)
    ensures !IsSpace(c)
  {
  }

  /** Joined literals start with a sign or a digit. */
  lemma {:induction false} JoinedLiteralsFirst(xs: seq<int>)
    requires |xs| >= 1
    ensures Join(Literals(xs)) != [] && !IsSpace(Join(Literals(xs))[0])
  {
    var shown := Literals(xs);
    assert shown[0] == ShowInt(xs[0]);
    JoinFirst(shown);
    SignOrDigitNotSpace(shown[0][0]);
  }

  /** Joined literals end with a digit. */
  lemma {:induction false} JoinedLiteralsLast(xs: seq<int>)
    requires |xs| >= 1
    ensures Join(Literals(xs)) != [] && !IsSpace(Join(Literals(xs))[|Join(Literals(xs))| - 1])
  {
    var shown := Literals(xs);
    var last := shown[|xs| - 1];
    assert last == ShowInt(xs[|xs| - 1]);
    JoinLast(shown);
    SignOrDigitNotSpace(last[|last| - 1]);
  }

  /** Reading each literal of `xs` back gives `xs`. */
  lemma {:induction false} ParseLiterals(xs: seq<int>)
    ensures ParseInts(Literals(xs)) == Some(xs)
  {
    var shown := Literals(xs);
    forall i | 0 <= i < |xs| ensures ParseInt(shown[i]) == Some(xs[i]) {
      ParseShowInt(xs[i]);
    }
    assert ParseInts(shown).value == xs;
  }

  /** The literals of a non-empty list of integers, joined with commas, read
      back as that list. */
  lemma {:induction false} IntListRoundTrip(xs: seq<int>)
    requires |xs| >= 1
    ensures IntFromString(Join(Literals(xs))) == Some(CommaSeparatedList(xs))
  {
    var s := Join(Literals(xs));
    assert FromString(s).values == Literals(xs) by {
      JoinedLiteralsUnstripped(xs);
      SplitJoin(Literals(xs));
    }
    ParseLiterals(xs);
  }
}
