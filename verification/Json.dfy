/** JSON values as a parser returns them, and the compact key-sorted rendering that gets signed. */
module Json {
  import opened Text

  /** A number is carried as the text it is printed with; objects are unordered. */
  datatype Json =
    | Null
    | Bool(b: bool)
    | Num(text: string)
    | Str(s: string)
    | Arr(items: seq<Json>)
    | Obj(members: map<string, Json>)

  predicate IsDelimiter(c: char) { c == ',' || c == ']' || c == '}' }

  /** A printed number starts like one and contains no delimiter. */
  predicate NumOk(t: string) {
    t != "" && ('0' <= t[0] <= '9' || t[0] == '-' || t[0] == 'N' || t[0] == 'I') && forall i :: 0 <= i < |t| ==> !IsDelimiter(t[i])
  }

  predicate WellFormed(j: Json)
    decreases j
  {
    match j
    case Num(t) => NumOk(t)
    case Arr(items) => forall i :: 0 <= i < |items| ==> WellFormed(items[i])
    case Obj(m) => forall k :: k in m ==> WellFormed(m[k])
    case _ => true
  }

  // --------------------------------------------------------------------- key order

  predicate IsLeast(k: string, keys: set<string>) { k in keys && forall x :: x in keys ==> LexLeq(k, x) }

  lemma {:induction false} LeastExists(keys: set<string>)
    requires keys != {}
    ensures exists k :: k in keys && IsLeast(k, keys)
    ensures forall k, l :: IsLeast(k, keys) && IsLeast(l, keys) ==> k == l
    decreases |keys|
  {
    var x :| x in keys;
    var rest := keys - {x};
    if rest == {} {
      LexTotal(x, x);
      assert keys == {x};
      assert IsLeast(x, keys);
    } else {
      LeastExists(rest);
      var k :| IsLeast(k, rest);
      LexTotal(x, k);
      LexTotal(x, x);
      var m := if LexLeq(x, k) then x else k;
      forall y | y in keys ensures LexLeq(m, y) {
        if y != x && m == x { LexTransitive(x, k, y); }
      }
      assert IsLeast(m, keys);
    }
    forall k, l | IsLeast(k, keys) && IsLeast(l, keys) ensures k == l { LexTotal(k, l); }
  }

  /** sort_keys. */
  function SortedKeys(keys: set<string>): (r: seq<string>)
    ensures forall k :: k in r <==> k in keys
    decreases |keys|
  {
    if keys == {} then []
    else
      LeastExists(keys);
      var k :| k in keys && IsLeast(k, keys);
      [k] + SortedKeys(keys - {k})
  }

  // --------------------------------------------------------------------- rendering

  function Hex(n: int): char
    requires 0 <= n < 16
  {
    "0123456789abcdef"[n]
  }

  /** ensure_ascii=False: only quotes, backslashes and control characters are escaped. */
  function EscapeChar(c: char): string {
    if c == '\"' then "\\\""
    else if c == '\\' then "\\\\"
    else if c == '\n' then "\\n"
    else if c == '\r' then "\\r"
    else if c == '\t' then "\\t"
    else if c as int == 8 then "\\b"
    else if c as int == 12 then "\\f"
    else if (c as int) < 32 then "\\u00" + [Hex(c as int / 16), Hex(c as int % 16)]
    else [c]
  }

  function Escape(s: string): string {
    if s == "" then "" else EscapeChar(s[0]) + Escape(s[1..])
  }

  function Quote(s: string): string { ['\"'] + (Escape(s) + ['\"']) }

  function Dumps(j: Json): string
    decreases j, 1, 0
  {
    match j
    case Null => "null"
    case Bool(b) => if b then "true" else "false"
    case Num(t) => t
    case Str(s) => Quote(s)
    case Arr(items) => ['['] + (if items == [] then [']'] else Dumps(items[0]) + DumpsItems(j, 1))
    case Obj(m) =>
      var keys := SortedKeys(m.Keys);
      ['{'] + (if keys == [] then ['}'] else DumpsMember(j, keys[0]) + DumpsMembers(j, keys[1..]))
  }

  function DumpsItems(j: Json, i: nat): string
    requires j.Arr? && i <= |j.items|
    decreases j, 0, |j.items| - i
  {
    if i == |j.items| then [']'] else [','] + (Dumps(j.items[i]) + DumpsItems(j, i + 1))
  }

  function DumpsMember(j: Json, key: string): string
    requires j.Obj? && key in j.members
    decreases j, 0, 0
  {
    Quote(key) + ([':'] + Dumps(j.members[key]))
  }

  function DumpsMembers(j: Json, keys: seq<string>): string
    requires j.Obj? && forall k :: k in keys ==> k in j.members
    decreases j, 0, |keys| + 1
  {
    if keys == [] then ['}'] else [','] + (DumpsMember(j, keys[0]) + DumpsMembers(j, keys[1..]))
  }

  // ------------------------------------------------------------------- injectivity

  /** What may follow a value: the end, or a delimiter. */
  predicate Follows(x: string) { x == "" || IsDelimiter(x[0]) }

  lemma SameTail(p: string, x: string, y: string)
    requires p + x == p + y
    ensures x == y
  {
    assert (p + x)[|p|..] == x && (p + y)[|p|..] == y;
  }

  lemma EscapeCharShape(c: char)
    ensures |EscapeChar(c)| >= 1 && (EscapeChar(c)[0] == '\\' <==> EscapeChar(c) != [c] ) && EscapeChar(c)[0] != '\"'
    ensures EscapeChar(c)[0] == '\\' ==> |EscapeChar(c)| == if EscapeChar(c)[1] == 'u' then 6 else 2
  {
  }

  lemma EscapeCharUnique(c: char, d: char, x: string, y: string)
    requires EscapeChar(c) + x == EscapeChar(d) + y
    ensures c == d && x == y
  {
    var l, r := EscapeChar(c), EscapeChar(d);
    EscapeCharShape(c);
    EscapeCharShape(d);
    assert l[0] == (l + x)[0] && r[0] == (r + y)[0];
    if l[0] == '\\' {
      assert l[1] == (l + x)[1] && r[1] == (r + y)[1];
      assert |l| == |r|;
      if |l| == 6 { assert l[4] == (l + x)[4] && r[4] == (r + y)[4] && l[5] == (l + x)[5] && r[5] == (r + y)[5]; }
      assert c as int == d as int by { SameEscape(c, d); }
    }
    SameTail(l, x, y);
  }

  /** The characters after the backslash tell which character was escaped. */
  lemma SameEscape(c: char, d: char)
    requires var l, r := EscapeChar(c), EscapeChar(d);
             l[0] == '\\' == r[0] && |l| == |r| && |l| >= 2 && l[1] == r[1] && (|l| == 6 ==> l[4] == r[4] && l[5] == r[5])
    ensures c == d
  {
    if |EscapeChar(c)| == 6 {
      HexUnique(c as int / 16, d as int / 16);
      HexUnique(c as int % 16, d as int % 16);
    }
  }

  lemma HexUnique(m: int, n: int)
    requires 0 <= m < 16 && 0 <= n < 16
    ensures Hex(m) == Hex(n) ==> m == n
  {
    var digits := "0123456789abcdef";
    assert forall i :: 0 <= i < 10 ==> digits[i] as int == '0' as int + i;
    assert forall i :: 10 <= i < 16 ==> digits[i] as int == 'a' as int + i - 10;
  }

  lemma FirstChars(c: char, d: char, x: string, y: string)
    requires [c] + x == [d] + y
    ensures c == d && x == y
  {
    assert c == ([c] + x)[0] && d == ([d] + y)[0];
    SameTail([c], x, y);
  }

  lemma Assoc(p: string, q: string, x: string)
    ensures (p + q) + x == p + (q + x)
  {
  }

  lemma EscapeUnfold(s: string, x: string)
    ensures Escape(s) + (['\"'] + x) == if s == "" then ['\"'] + x else EscapeChar(s[0]) + (Escape(s[1..]) + (['\"'] + x))
  {
    if s != "" { Assoc(EscapeChar(s[0]), Escape(s[1..]), ['\"'] + x); }
  }

  /** An escape never starts with the closing quote. */
  lemma NotQuote(c: char, x: string, y: string)
    ensures EscapeChar(c) + x != ['\"'] + y
  {
    EscapeCharShape(c);
    assert (EscapeChar(c) + x)[0] == EscapeChar(c)[0] && (['\"'] + y)[0] == '\"';
  }

  lemma {:induction false} EscapeUnique(s: string, t: string, x: string, y: string)
    requires Escape(s) + (['\"'] + x) == Escape(t) + (['\"'] + y)
    ensures s == t && x == y
  {
    hide Escape, EscapeChar;
    EscapeUnfold(s, x);
    EscapeUnfold(t, y);
    if s == "" && t == "" {
      FirstChars('\"', '\"', x, y);
    } else if s == "" {
      NotQuote(t[0], Escape(t[1..]) + (['\"'] + y), x);
    } else if t == "" {
      NotQuote(s[0], Escape(s[1..]) + (['\"'] + x), y);
    } else {
      EscapeCharUnique(s[0], t[0], Escape(s[1..]) + (['\"'] + x), Escape(t[1..]) + (['\"'] + y));
      EscapeUnique(s[1..], t[1..], x, y);
      assert s == [s[0]] + s[1..] && t == [t[0]] + t[1..];
    }
  }

  lemma QuoteUnique(s: string, t: string, x: string, y: string)
    requires Quote(s) + x == Quote(t) + y
    ensures s == t && x == y
  {
    hide Escape;
    assert Quote(s) + x == ['\"'] + (Escape(s) + (['\"'] + x));
    assert Quote(t) + y == ['\"'] + (Escape(t) + (['\"'] + y));
    FirstChars('\"', '\"', Escape(s) + (['\"'] + x), Escape(t) + (['\"'] + y));
    EscapeUnique(s, t, x, y);
  }

  lemma NotFollowing(t: string, x: string, y: string)
    requires t != "" && !IsDelimiter(t[0]) && Follows(x)
    ensures "" + x != t + y
  {
    assert (t + y)[0] == t[0];
  }

  lemma {:induction false} NumUnique(s: string, t: string, x: string, y: string)
    requires (forall i :: 0 <= i < |s| ==> !IsDelimiter(s[i])) && (forall i :: 0 <= i < |t| ==> !IsDelimiter(t[i]))
    requires Follows(x) && Follows(y) && s + x == t + y
    ensures s == t && x == y
  {
    if s == "" && t == "" {
      SameTail("", x, y);
    } else if s == "" {
      NotFollowing(t, x, y);
    } else if t == "" {
      NotFollowing(s, y, x);
    } else {
      assert s == [s[0]] + s[1..] && t == [t[0]] + t[1..];
      Assoc([s[0]], s[1..], x);
      Assoc([t[0]], t[1..], y);
      FirstChars(s[0], t[0], s[1..] + x, t[1..] + y);
      NumUnique(s[1..], t[1..], x, y);
    }
  }

  /** The first character tells the kind of value. */
  function Head(j: Json): char
    requires WellFormed(j)
  {
    match j
    case Null => 'n'
    case Bool(b) => if b then 't' else 'f'
    case Num(t) => t[0]
    case Str(_) => '\"'
    case Arr(_) => '['
    case Obj(_) => '{'
  }

  lemma DumpsHead(j: Json, x: string) returns (rest: string)
    requires WellFormed(j)
    ensures Dumps(j) + x == [Head(j)] + rest
  {
    var d := Dumps(j);
    assert d != "" && d[0] == Head(j);
    rest := d[1..] + x;
    assert d == [d[0]] + d[1..];
    Assoc([d[0]], d[1..], x);
  }

  lemma SameKind(a: Json, b: Json, x: string, y: string)
    requires WellFormed(a) && WellFormed(b) && Dumps(a) + x == Dumps(b) + y
    ensures Head(a) == Head(b)
  {
    hide Dumps;
    var p := DumpsHead(a, x);
    var q := DumpsHead(b, y);
    FirstChars(Head(a), Head(b), p, q);
  }

  /** No value starts like the end of a list or an object. */
  lemma NotClosed(j: Json, x: string, c: char, y: string)
    requires WellFormed(j) && IsDelimiter(c)
    ensures Dumps(j) + x != [c] + y
  {
    hide Dumps;
    var p := DumpsHead(j, x);
    if [Head(j)] + p == [c] + y { FirstChars(Head(j), c, p, y); }
  }

  /** A rendering can be read back in one way only, whatever delimiter follows it. */
  lemma {:induction false} DumpsUnique(a: Json, b: Json, x: string, y: string)
    requires WellFormed(a) && WellFormed(b) && Follows(x) && Follows(y) && Dumps(a) + x == Dumps(b) + y
    ensures a == b && x == y
    decreases a, 1, 0
  {
    SameKind(a, b, x, y);
    match a
    case Null => SameTail("null", x, y);
    case Bool(v) => SameTail(if v then "true" else "false", x, y);
    case Num(t) => NumUnique(t, b.text, x, y);
    case Str(s) => QuoteUnique(s, b.s, x, y);
    case Arr(items) => ArrUnique(a, b, x, y);
    case Obj(m) => ObjUnique(a, b, x, y);
  }

  lemma ArrUnfold(a: Json, x: string)
    requires a.Arr?
    ensures Dumps(a) + x == ['['] + if a.items == [] then [']'] + x else Dumps(a.items[0]) + (DumpsItems(a, 1) + x)
  {
    var inner := if a.items == [] then [']'] else Dumps(a.items[0]) + DumpsItems(a, 1);
    assert Dumps(a) == ['['] + inner;
    Assoc(['['], inner, x);
    if a.items != [] { Assoc(Dumps(a.items[0]), DumpsItems(a, 1), x); }
  }

  lemma ItemsUnfold(a: Json, i: nat, x: string)
    requires a.Arr? && i <= |a.items|
    ensures DumpsItems(a, i) + x == if i == |a.items| then [']'] + x else [','] + (Dumps(a.items[i]) + (DumpsItems(a, i + 1) + x))
    ensures Follows(DumpsItems(a, i) + x)
  {
    hide Dumps;
    if i < |a.items| {
      Assoc([','], Dumps(a.items[i]) + DumpsItems(a, i + 1), x);
      Assoc(Dumps(a.items[i]), DumpsItems(a, i + 1), x);
    }
  }

  lemma ArrUnique(a: Json, b: Json, x: string, y: string)
    requires a.Arr? && b.Arr? && WellFormed(a) && WellFormed(b) && Dumps(a) + x == Dumps(b) + y
    ensures a == b && x == y
    decreases a, 0, |a.items| + 1
  {
    hide Dumps, DumpsItems;
    ArrUnfold(a, x);
    ArrUnfold(b, y);
    FirstChars('[', '[', if a.items == [] then [']'] + x else Dumps(a.items[0]) + (DumpsItems(a, 1) + x),
                         if b.items == [] then [']'] + y else Dumps(b.items[0]) + (DumpsItems(b, 1) + y));
    if a.items == [] && b.items == [] {
      FirstChars(']', ']', x, y);
    } else if a.items == [] {
      NotClosed(b.items[0], DumpsItems(b, 1) + y, ']', x);
    } else if b.items == [] {
      NotClosed(a.items[0], DumpsItems(a, 1) + x, ']', y);
    } else {
      ItemsUnfold(a, 1, x);
      ItemsUnfold(b, 1, y);
      DumpsUnique(a.items[0], b.items[0], DumpsItems(a, 1) + x, DumpsItems(b, 1) + y);
      ItemsUnique(a, 1, b, 1, x, y);
      assert a.items == [a.items[0]] + a.items[1..] && b.items == [b.items[0]] + b.items[1..];
    }
  }

  lemma {:induction false} ItemsUnique(a: Json, i: nat, b: Json, j: nat, x: string, y: string)
    requires a.Arr? && b.Arr? && WellFormed(a) && WellFormed(b) && i <= |a.items| && j <= |b.items|
    requires DumpsItems(a, i) + x == DumpsItems(b, j) + y
    ensures a.items[i..] == b.items[j..] && x == y
    decreases a, 0, |a.items| - i
  {
    hide Dumps, DumpsItems;
    ItemsUnfold(a, i, x);
    ItemsUnfold(b, j, y);
    FirstChars(if i == |a.items| then ']' else ',', if j == |b.items| then ']' else ',',
               if i == |a.items| then x else Dumps(a.items[i]) + (DumpsItems(a, i + 1) + x),
               if j == |b.items| then y else Dumps(b.items[j]) + (DumpsItems(b, j + 1) + y));
    if i < |a.items| && j < |b.items| {
      ItemsUnfold(a, i + 1, x);
      ItemsUnfold(b, j + 1, y);
      DumpsUnique(a.items[i], b.items[j], DumpsItems(a, i + 1) + x, DumpsItems(b, j + 1) + y);
      ItemsUnique(a, i + 1, b, j + 1, x, y);
      assert a.items[i..] == [a.items[i]] + a.items[i + 1..] && b.items[j..] == [b.items[j]] + b.items[j + 1..];
    }
  }

  lemma ObjUnfold(a: Json, x: string)
    requires a.Obj?
    ensures var ks := SortedKeys(a.members.Keys);
            Dumps(a) + x == ['{'] + if ks == [] then ['}'] + x else DumpsMember(a, ks[0]) + (DumpsMembers(a, ks[1..]) + x)
  {
    hide DumpsMember, SortedKeys;
    var ks := SortedKeys(a.members.Keys);
    var inner := if ks == [] then ['}'] else DumpsMember(a, ks[0]) + DumpsMembers(a, ks[1..]);
    assert Dumps(a) == ['{'] + inner;
    Assoc(['{'], inner, x);
    if ks != [] { Assoc(DumpsMember(a, ks[0]), DumpsMembers(a, ks[1..]), x); }
  }

  lemma MembersUnfold(a: Json, ks: seq<string>, x: string)
    requires a.Obj? && forall k :: k in ks ==> k in a.members
    ensures DumpsMembers(a, ks) + x == if ks == [] then ['}'] + x else [','] + (DumpsMember(a, ks[0]) + (DumpsMembers(a, ks[1..]) + x))
    ensures Follows(DumpsMembers(a, ks) + x)
  {
    hide DumpsMember;
    if ks != [] {
      Assoc([','], DumpsMember(a, ks[0]) + DumpsMembers(a, ks[1..]), x);
      Assoc(DumpsMember(a, ks[0]), DumpsMembers(a, ks[1..]), x);
    }
  }

  lemma MemberUnfold(a: Json, k: string, x: string)
    requires a.Obj? && k in a.members
    ensures DumpsMember(a, k) + x == Quote(k) + ([':'] + (Dumps(a.members[k]) + x))
  {
    hide Dumps, Quote;
    Assoc(Quote(k), [':'] + Dumps(a.members[k]), x);
    Assoc([':'], Dumps(a.members[k]), x);
  }

  lemma ObjUnique(a: Json, b: Json, x: string, y: string)
    requires a.Obj? && b.Obj? && WellFormed(a) && WellFormed(b) && Dumps(a) + x == Dumps(b) + y
    ensures a == b && x == y
    decreases a, 0, 2 * |SortedKeys(a.members.Keys)| + 2
  {
    hide Dumps, DumpsMember, DumpsMembers, SortedKeys;
    var ks, ls := SortedKeys(a.members.Keys), SortedKeys(b.members.Keys);
    ObjUnfold(a, x);
    ObjUnfold(b, y);
    var l := if ks == [] then ['}'] + x else DumpsMember(a, ks[0]) + (DumpsMembers(a, ks[1..]) + x);
    var r := if ls == [] then ['}'] + y else DumpsMember(b, ls[0]) + (DumpsMembers(b, ls[1..]) + y);
    FirstChars('{', '{', l, r);
    if ks == [] && ls == [] {
      FirstChars('}', '}', x, y);
      SameMembers(a, b, ks);
    } else if ks == [] {
      MemberHead(b, ls[0], DumpsMembers(b, ls[1..]) + y, x);
    } else if ls == [] {
      MemberHead(a, ks[0], DumpsMembers(a, ks[1..]) + x, y);
    } else {
      MemberUnique(a, ks, b, ls, x, y);
      SameMembers(a, b, ks);
    }
  }

  lemma MemberHead(a: Json, k: string, x: string, y: string)
    requires a.Obj? && k in a.members
    ensures DumpsMember(a, k) + x != ['}'] + y
  {
    hide Dumps;
    MemberUnfold(a, k, x);
    var rest := (Escape(k) + ['\"']) + ([':'] + (Dumps(a.members[k]) + x));
    Assoc(['\"'], Escape(k) + ['\"'], [':'] + (Dumps(a.members[k]) + x));
    if DumpsMember(a, k) + x == ['}'] + y { FirstChars('\"', '}', rest, y); }
  }

  lemma SameMembers(a: Json, b: Json, ks: seq<string>)
    requires a.Obj? && b.Obj? && ks == SortedKeys(a.members.Keys) == SortedKeys(b.members.Keys)
    requires forall k :: k in ks ==> k in a.members && k in b.members && a.members[k] == b.members[k]
    ensures a == b
  {
    assert forall k :: k in ks <==> k in a.members.Keys;
    assert forall k :: k in ks <==> k in b.members.Keys;
    assert a.members.Keys == b.members.Keys;
    assert a.members == b.members;
  }

  /** One key with its value, then the rest. */
  lemma {:induction false} MemberUnique(a: Json, ks: seq<string>, b: Json, ls: seq<string>, x: string, y: string)
    requires a.Obj? && b.Obj? && WellFormed(a) && WellFormed(b) && ks != [] && ls != []
    requires (forall k :: k in ks ==> k in a.members) && (forall k :: k in ls ==> k in b.members)
    requires DumpsMember(a, ks[0]) + (DumpsMembers(a, ks[1..]) + x) == DumpsMember(b, ls[0]) + (DumpsMembers(b, ls[1..]) + y)
    ensures ks == ls && (forall k :: k in ks ==> a.members[k] == b.members[k]) && x == y
    decreases a, 0, 2 * |ks|
  {
    hide Dumps, DumpsMember, DumpsMembers, Quote;
    var v, w := a.members[ks[0]], b.members[ls[0]];
    var p, q := DumpsMembers(a, ks[1..]) + x, DumpsMembers(b, ls[1..]) + y;
    MemberUnfold(a, ks[0], p);
    MemberUnfold(b, ls[0], q);
    MembersUnfold(a, ks[1..], x);
    MembersUnfold(b, ls[1..], y);
    QuoteUnique(ks[0], ls[0], [':'] + (Dumps(v) + p), [':'] + (Dumps(w) + q));
    FirstChars(':', ':', Dumps(v) + p, Dumps(w) + q);
    DumpsUnique(v, w, p, q);
    MembersUnique(a, ks[1..], b, ls[1..], x, y);
    assert ks == [ks[0]] + ks[1..] && ls == [ls[0]] + ls[1..];
  }

  lemma {:induction false} MembersUnique(a: Json, ks: seq<string>, b: Json, ls: seq<string>, x: string, y: string)
    requires a.Obj? && b.Obj? && WellFormed(a) && WellFormed(b)
    requires (forall k :: k in ks ==> k in a.members) && (forall k :: k in ls ==> k in b.members)
    requires DumpsMembers(a, ks) + x == DumpsMembers(b, ls) + y
    ensures ks == ls && (forall k :: k in ks ==> a.members[k] == b.members[k]) && x == y
    decreases a, 0, 2 * |ks| + 1
  {
    hide Dumps, DumpsMember, DumpsMembers;
    MembersUnfold(a, ks, x);
    MembersUnfold(b, ls, y);
    FirstChars(if ks == [] then '}' else ',', if ls == [] then '}' else ',',
               if ks == [] then x else DumpsMember(a, ks[0]) + (DumpsMembers(a, ks[1..]) + x),
               if ls == [] then y else DumpsMember(b, ls[0]) + (DumpsMembers(b, ls[1..]) + y));
    if ks != [] && ls != [] { MemberUnique(a, ks, b, ls, x, y); }
  }

  /** Equal renderings come from equal values. */
  lemma DumpsInjective(a: Json, b: Json)
    requires WellFormed(a) && WellFormed(b) && Dumps(a) == Dumps(b)
    ensures a == b
  {
    hide Dumps;
    assert Dumps(a) + "" == Dumps(a) && Dumps(b) + "" == Dumps(b);
    DumpsUnique(a, b, "", "");
  }
}
