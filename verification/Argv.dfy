/**
  The serialiser of command lines for the system log. Arguments are strings of
  bytes other than zero, here characters. `Decode` is the reader that the
  manual promises: split at unquoted single spaces, drop quotes and backslashes.
 */
module Argv {

  /** isspace(3), isascii(3) and isprint(3) in the C locale. */
  predicate IsSpace(c: char) { c == ' ' || 9 <= c as int <= 13 }
  predicate IsAscii(c: char) { c as int < 128 }
  predicate IsPrint(c: char) { 32 <= c as int < 127 }

  /** Bytes with a backslash before them. */
  predicate Escaped(c: char) { c == '!' || c == '\"' || c == '$' || c == '\\' || c == '`' }

  /** The other shell metacharacters. */
  predicate Meta(c: char) {
    c == '#' || c == '%' || c == '&' || c == '\'' || c == '(' || c == ')' || c == '*' || c == ';' ||
    c == '<' || c == '=' || c == '>' || c == '?' || c == '[' || c == ']' || c == '^' || c == '{' ||
    c == '|' || c == '}' || c == '~'
  }

  /** A byte that makes its argument be quoted. */
  predicate Quotes(c: char) { IsSpace(c) || !IsAscii(c) || !IsPrint(c) || Escaped(c) || Meta(c) }

  predicate QuoteP(a: string) { exists i :: 0 <= i < |a| && Quotes(a[i]) }

  function Escape(a: string): string {
    if a == "" then ""
    else
      var n := |a| - 1;
      Escape(a[..n]) + (if Escaped(a[n]) then ['\\', a[n]] else [a[n]])
  }

  function Serial(a: string): string { if QuoteP(a) then "\"" + Escape(a) + "\"" else Escape(a) }

  function SerialAll(args: seq<string>): string {
    if args == [] then ""
    else if |args| == 1 then Serial(args[0])
    else SerialAll(args[..|args| - 1]) + " " + Serial(args[|args| - 1])
  }

  // ---------------------------------------------------------------------------
  // The serialiser

  lemma {:induction false} EscapeLength(a: string)
    ensures |a| <= |Escape(a)| <= 2 * |a|
  {
    if a != "" { EscapeLength(a[..|a| - 1]); }
  }

  lemma EscapeSnoc(a: string, k: nat)
    requires k < |a|
    ensures Escape(a[..k + 1]) == Escape(a[..k]) + (if Escaped(a[k]) then ['\\', a[k]] else [a[k]])
  {
    assert a[..k + 1][..k] == a[..k];
  }

  /** The copy loop: into a buffer of 2 * strlen + 3 zeroed bytes. */
  method CopyArgument(arg: string) returns (buf: array<char>, jo: nat, quoteP: bool)
    ensures fresh(buf) && buf.Length == 2 * |arg| + 3
    ensures jo == |Escape(arg)| && jo + 3 <= buf.Length
    ensures buf[..jo] == Escape(arg)
    ensures forall i :: jo <= i < buf.Length ==> buf[i] == 0 as char
    ensures quoteP == QuoteP(arg)
  {
    buf := new char[2 * |arg| + 3](_ => 0 as char);
    quoteP, jo := false, 0;
    var ji := 0;
    while ji < |arg|
      invariant 0 <= ji <= |arg|
      invariant jo == |Escape(arg[..ji])| <= 2 * ji
      invariant buf[..jo] == Escape(arg[..ji])
      invariant forall i :: jo <= i < buf.Length ==> buf[i] == 0 as char
      invariant quoteP == QuoteP(arg[..ji])
    {
      var c := arg[ji];
      EscapeSnoc(arg, ji);
      QuoteSnoc(arg, ji);
      EscapeLength(arg[..ji + 1]);
      if IsSpace(c) || !IsAscii(c) || !IsPrint(c) { quoteP := true; }
      if Escaped(c) {
        buf[jo] := '\\';
        jo := jo + 1;
      }
      if Escaped(c) || Meta(c) { quoteP := true; }
      buf[jo] := c;
      jo := jo + 1;
      ji := ji + 1;
    }
    assert arg[..|arg|] == arg;
  }

  lemma QuoteSnoc(a: string, k: nat)
    requires k < |a|
    ensures QuoteP(a[..k + 1]) <==> QuoteP(a[..k]) || Quotes(a[k])
  {
    if QuoteP(a[..k]) {
      var i :| 0 <= i < k && Quotes(a[..k][i]);
      assert a[..k + 1][i] == a[..k][i];
    }
    if Quotes(a[k]) { assert a[..k + 1][k] == a[k]; }
    if QuoteP(a[..k + 1]) {
      var i :| 0 <= i < k + 1 && Quotes(a[..k + 1][i]);
      assert i < k ==> a[..k][i] == a[..k + 1][i];
    }
  }

  lemma SerialSnoc(args: seq<string>, i: nat)
    requires i < |args|
    ensures SerialAll(args[..i + 1]) == (if i == 0 then "" else SerialAll(args[..i]) + " ") + Serial(args[i])
  {
    assert args[..i + 1][..i] == args[..i];
    assert i == 0 ==> "" + Serial(args[i]) == Serial(args[i]);
  }

  /** argv_to_string */
  method ArgvToString(argv: seq<string>) returns (s: string)
    ensures s == SerialAll(argv)
  {
    s := "";
    var i := 0;
    while i < |argv|
      invariant 0 <= i <= |argv|
      invariant s == SerialAll(argv[..i])
    {
      var buf, jo, quoteP := CopyArgument(argv[i]);
      SerialSnoc(argv, i);
      if i != 0 { s := s + " "; }
      s := s + (if quoteP then "\"" + buf[..jo] + "\"" else buf[..jo]);
      i := i + 1;
    }
    assert argv[..|argv|] == argv;
  }

  // ---------------------------------------------------------------------------
  // Reading it back

  /** `arg` is what has been read of the current argument. */
  function Decode(s: string, quoted: bool, arg: string): seq<string>
    decreases |s|
  {
    if s == "" then [arg]
    else if s[0] == '\"' then Decode(s[1..], !quoted, arg)
    else if quoted then
      if s[0] == '\\' && |s| > 1 then Decode(s[2..], true, arg + [s[1]]) else Decode(s[1..], true, arg + [s[0]])
    else if s[0] == ' ' then [arg] + Decode(s[1..], false, "")
    else Decode(s[1..], false, arg + [s[0]])
  }

  /** Escaping from the front. */
  lemma {:induction false} EscapeCons(c: char, a: string)
    ensures Escape([c] + a) == (if Escaped(c) then ['\\', c] else [c]) + Escape(a)
  {
    var s, n := [c] + a, |a| - 1;
    if a != "" {
      EscapeCons(c, a[..n]);
      assert s[..|s| - 1] == [c] + a[..n];
    }
  }

  /** One character inside quotes, escaped or not. */
  lemma DecodeOne(c: char, tail: string, arg: string)
    ensures Decode((if Escaped(c) then ['\\', c] else [c]) + tail, true, arg) == Decode(tail, true, arg + [c])
  {
    if Escaped(c) {
      var s := ['\\', c] + tail;
      assert s[2..] == tail;
    } else {
      var s := [c] + tail;
      assert s[1..] == tail;
    }
  }

  lemma {:induction false} DecodeQuoted(a: string, rest: string, arg: string)
    ensures Decode(Escape(a) + "\"" + rest, true, arg) == Decode(rest, false, arg + a)
    decreases |a|
  {
    if a == "" {
      assert "" + "\"" + rest == ['\"'] + rest;
      assert arg + a == arg;
    } else {
      var c, b := a[0], a[1..];
      assert a == [c] + b && arg + a == arg + [c] + b;
      EscapeCons(c, b);
      DecodeQuoted(b, rest, arg + [c]);
      DecodeOne(c, Escape(b) + "\"" + rest, arg);
      assert Escape(a) + "\"" + rest == (if Escaped(c) then ['\\', c] else [c]) + (Escape(b) + "\"" + rest);
    }
  }

  lemma {:induction false} EscapePlain(a: string)
    requires !QuoteP(a)
    ensures Escape(a) == a
  {
    if a != "" {
      var b, c := a[..|a| - 1], a[|a| - 1];
      QuoteSnoc(a, |a| - 1);
      assert a[..|a| - 1 + 1] == a == b + [c];
      EscapePlain(b);
    }
  }

  predicate AllPlain(a: string) { forall i :: 0 <= i < |a| ==> !Quotes(a[i]) }

  lemma {:induction false} DecodePlain(a: string, rest: string, arg: string)
    requires AllPlain(a)
    ensures Decode(a + rest, false, arg) == Decode(rest, false, arg + a)
    decreases |a|
  {
    if a == "" {
      assert "" + rest == rest && arg + a == arg;
    } else {
      var c, b := a[0], a[1..];
      DecodePlain(b, rest, arg + [c]);
      assert (a + rest)[1..] == b + rest;
      assert arg + a == arg + [c] + b;
    }
  }

  lemma OpenQuote(tail: string)
    ensures Decode(['\"'] + tail, false, "") == Decode(tail, true, "")
  {
    assert (['\"'] + tail)[1..] == tail;
  }

  lemma InQuotes(x: string, rest: string)
    ensures "\"" + x + "\"" + rest == ['\"'] + (x + "\"" + rest)
  {
  }

  lemma DecodeSerial(a: string, rest: string)
    ensures Decode(Serial(a) + rest, false, "") == Decode(rest, false, a)
  {
    assert "" + a == a;
    if QuoteP(a) {
      DecodeQuoted(a, rest, "");
      OpenQuote(Escape(a) + "\"" + rest);
      InQuotes(Escape(a), rest);
    } else {
      EscapePlain(a);
      DecodePlain(a, rest, "");
    }
  }

  lemma Separator(tail: string, arg: string)
    ensures Decode([' '] + tail, false, arg) == [arg] + Decode(tail, false, "")
  {
    assert ([' '] + tail)[1..] == tail;
  }

  lemma Regroup(a: string, b: string, c: string, d: string)
    ensures a + b + c + d == a + (b + (c + d))
  {
  }

  lemma SerialLast(args: seq<string>, rest: string)
    requires |args| > 1
    ensures SerialAll(args) + rest
            == SerialAll(args[..|args| - 1]) + ([' '] + (Serial(args[|args| - 1]) + rest))
  {
    Regroup(SerialAll(args[..|args| - 1]), [' '], Serial(args[|args| - 1]), rest);
  }

  lemma OneMore(init: seq<string>, more: seq<string>)
    requires init != []
    ensures init[..|init| - 1] + ([init[|init| - 1]] + more) == init + more
  {
  }

  /** The reader started on `args` finishes them and goes on with what follows. */
  lemma {:induction false} DecodeAll(args: seq<string>, rest: string)
    requires args != []
    ensures Decode(SerialAll(args) + rest, false, "")
            == args[..|args| - 1] + Decode(rest, false, args[|args| - 1])
  {
    var n := |args| - 1;
    DecodeSerial(args[n], rest);
    if n == 0 {
      assert args[..0] == [];
    } else {
      var init, tail := args[..n], Serial(args[n]) + rest;
      SerialLast(args, rest);
      DecodeAll(init, [' '] + tail);
      Separator(tail, init[n - 1]);
      OneMore(init, Decode(rest, false, args[n]));
    }
  }

  /** Every non-empty list of arguments is recovered byte for byte. */
  lemma Recovered(args: seq<string>)
    requires args != []
    ensures Decode(SerialAll(args), false, "") == args
  {
    DecodeAll(args, "");
    assert SerialAll(args) + "" == SerialAll(args);
    assert args == args[..|args| - 1] + [args[|args| - 1]];
  }

  /** Letters, digits and eight others. */
  predicate Safe(c: char) {
    || 'a' <= c <= 'z' || 'A' <= c <= 'Z' || '0' <= c <= '9'
    || c == '+' || c == ',' || c == '-' || c == '.' || c == '/' || c == ':' || c == '@' || c == '_'
  }

  lemma SafeBytes(c: char)
    ensures Safe(c) <==> !Quotes(c)
  {
  }

  /** Bytes are copied, and exactly these five get a backslash. */
  lemma EscapeByte(a: string, c: char)
    ensures Escape("") == ""
    ensures Escape(a + [c]) ==
              Escape(a) + (if c == '!' || c == '\"' || c == '$' || c == '\\' || c == '`' then ['\\', c] else [c])
  {
    assert (a + [c])[..|a|] == a;
  }

  /** An argument is logged unchanged exactly when it has only printable ASCII bytes
      that are neither white space nor special to the shell: letters, digits and
      + , - . / : @ _. Any other argument is escaped and put in double quotes. */
  lemma Unchanged(a: string)
    ensures Serial(a) == a <==>
            forall i :: 0 <= i < |a| ==> IsPrint(a[i]) && a[i] != ' ' && !Escaped(a[i]) && !Meta(a[i])
    ensures Serial(a) == a <==> forall i :: 0 <= i < |a| ==> Safe(a[i])
    ensures Serial(a) != a ==> Serial(a) == "\"" + Escape(a) + "\""
  {
    EscapeLength(a);
    if QuoteP(a) {
      var i :| 0 <= i < |a| && Quotes(a[i]);
      SafeBytes(a[i]);
    } else {
      forall i | 0 <= i < |a| ensures Safe(a[i]) { SafeBytes(a[i]); }
      EscapePlain(a);
      assert AllPlain(a);
    }
  }
}
