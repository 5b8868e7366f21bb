/** Quoting of text as an SQL string literal, and the reading of such literals (section 5.3 of ISO/IEC 9075-2): a quote
    inside the literal is written twice. */
module SqlLiteral {
  import opened Common
  import Text

  function Quote(s: string): string {
    "'" + Text.ReplaceAll(s, "'", "''") + "'"
  }

  /** The text after the opening quote, read up to the closing quote: the value and what follows. */
  function ReadBody(t: string): Option<(string, string)>
    decreases |t|
  {
    if t == "" then None
    else if t[0] != '\'' then
      (match ReadBody(t[1..])
       case None => None
       case Some((value, rest)) => Some(([t[0]] + value, rest)))
    else if |t| >= 2 && t[1] == '\'' then
      (match ReadBody(t[2..])
       case None => None
       case Some((value, rest)) => Some(("'" + value, rest)))
    else Some(("", t[1..]))
  }

  function ReadLiteral(t: string): Option<(string, string)> {
    if t == "" || t[0] != '\'' then None else ReadBody(t[1..])
  }

  /** The statement text goes on with something other than a quote. */
  predicate Separated(rest: string) {
    rest == "" || rest[0] != '\''
  }

  lemma DoublingStep(s: string)
    requires s != ""
    ensures Text.ReplaceAll(s, "'", "''") == (if s[0] == '\'' then "''" else [s[0]]) + Text.ReplaceAll(s[1..], "'", "''")
  {
    assert s[..1] == [s[0]];
  }

  lemma EmptyIsDoubled()
    ensures Text.ReplaceAll("", "'", "''") == ""
  {}

  lemma {:induction false} BodyReadsBack(s: string, rest: string)
    requires Separated(rest)
    ensures ReadBody(Text.ReplaceAll(s, "'", "''") + "'" + rest) == Some((s, rest))
  {
    var body := Text.ReplaceAll(s, "'", "''") + "'" + rest;
    if s == "" {
      assert body == "'" + rest;
      assert body[1..] == rest;
    } else {
      DoublingStep(s);
      BodyReadsBack(s[1..], rest);
      var tail := Text.ReplaceAll(s[1..], "'", "''") + "'" + rest;
      assert body == (if s[0] == '\'' then "''" else [s[0]]) + tail;
      if s[0] == '\'' { assert body[2..] == tail; } else { assert body[1..] == tail; }
      assert s == [s[0]] + s[1..];
    }
  }

  lemma {:induction false} BodyIsDoubled(t: string)
    ensures match ReadBody(t)
            case None => true
            case Some((value, rest)) => t == Text.ReplaceAll(value, "'", "''") + "'" + rest && Separated(rest)
    decreases |t|
  {
    hide Text.ReplaceAll;
    EmptyIsDoubled();
    if t != "" {
      if t[0] != '\'' {
        BodyIsDoubled(t[1..]);
        if ReadBody(t[1..]).Some? {
          var (value, rest) := ReadBody(t[1..]).value;
          DoublingStep([t[0]] + value);
          assert ([t[0]] + value)[1..] == value;
          assert t == [t[0]] + t[1..];
        }
      } else if |t| >= 2 && t[1] == '\'' {
        BodyIsDoubled(t[2..]);
        if ReadBody(t[2..]).Some? {
          var (value, rest) := ReadBody(t[2..]).value;
          DoublingStep("'" + value);
          assert ("'" + value)[1..] == value;
          assert t == "''" + t[2..];
        }
      } else {
        assert t == "'" + t[1..];
      }
    }
  }

  /** A text reads as the literal s followed by `rest` exactly when it is the quoted s, and then `rest`, and `rest` does
      not start with a quote: quoting writes the only literal for s, whatever characters s holds. */
  lemma ReadsAsIff(t: string, s: string, rest: string)
    ensures ReadLiteral(t) == Some((s, rest)) <==> t == Quote(s) + rest && Separated(rest)
  {
    if t == Quote(s) + rest && Separated(rest) {
      assert t[1..] == Text.ReplaceAll(s, "'", "''") + "'" + rest;
      BodyReadsBack(s, rest);
    }
    if ReadLiteral(t) == Some((s, rest)) {
      BodyIsDoubled(t[1..]);
      assert t == "'" + t[1..];
    }
  }

  /** Different texts have different literals, and neither literal is the beginning of a longer one. */
  lemma QuoteIsInjective(a: string, b: string, rest: string)
    requires Quote(a) == Quote(b) + rest
    ensures Separated(rest) ==> a == b && rest == ""
  {
    if Separated(rest) {
      ReadsAsIff(Quote(a), a, "");
      assert Quote(a) + "" == Quote(a);
      ReadsAsIff(Quote(a), b, rest);
    }
  }

  // ---------------------------------------------------------------------------------------------
  // The custom field statement

  /** The statement up to the key, and from the key on. */
  function Before(table: string): string {
    "UPDATE " + table + " SET custom_fields = COALESCE(custom_fields, '{}'::jsonb) || jsonb_build_object("
  }

  function Behind(): string {
    ", ?) WHERE id = ? AND enterprise_id = ?"
  }

  function FieldStatement(table: string, key: string): string {
    Before(table) + Quote(key) + Behind()
  }

  /** As formatted, the statement's key literal reads as exactly the key, whatever the key, and the fixed text that
      follows it is untouched. */
  lemma FieldStatementReadsKey(table: string, key: string)
    ensures |Before(table)| <= |FieldStatement(table, key)|
    ensures ReadLiteral(FieldStatement(table, key)[|Before(table)|..]) == Some((key, Behind()))
  {
    assert FieldStatement(table, key) == Before(table) + (Quote(key) + Behind());
    assert FieldStatement(table, key)[|Before(table)|..] == Quote(key) + Behind();
    ReadsAsIff(Quote(key) + Behind(), key, Behind());
  }

  const VALUES: nat := 3

  /** Executing a statement with three values: its question marks become $1, $2 and $3, from left to right wherever they
      stand, while there are values left; `n` is the number of the next one. */
  function Bound(sql: string, n: nat): string {
    if sql == "" then "" else BoundChar(sql[0], n) + Bound(sql[1..], if sql[0] == '?' then n + 1 else n)
  }

  function BoundChar(c: char, n: nat): (text: string)
    ensures text != "" && (c != '\'' ==> '\'' !in text)
    ensures text == [c] <==> c != '?' || n > VALUES
    ensures c != '?' || n > VALUES || |text| == 2
  {
    if c == '?' && n <= VALUES then "$" + ['0' + n as char] else [c]
  }

  function Marks(sql: string): nat {
    if sql == "" then 0 else (if sql[0] == '?' then 1 else 0) + Marks(sql[1..])
  }

  lemma {:induction false} BoundConcat(a: string, b: string, n: nat)
    ensures Bound(a + b, n) == Bound(a, n) + Bound(b, n + Marks(a))
  {
    if a == "" {
      assert a + b == b;
    } else {
      assert (a + b)[1..] == a[1..] + b;
      BoundConcat(a[1..], b, if a[0] == '?' then n + 1 else n);
    }
  }

  /** Binding inside a literal binds inside its value. */
  lemma {:induction false} BoundDoubled(s: string, n: nat)
    ensures Bound(Text.ReplaceAll(s, "'", "''"), n) == Text.ReplaceAll(Bound(s, n), "'", "''")
    ensures Marks(Text.ReplaceAll(s, "'", "''")) == Marks(s)
  {
    hide Bound, BoundChar, Marks, Text.ReplaceAll;
    NothingToBind(n);
    if s != "" {
      var m := if s[0] == '?' then n + 1 else n;
      var rest, doubled := Text.ReplaceAll(s[1..], "'", "''"), if s[0] == '\'' then "''" else [s[0]];
      BoundDoubled(s[1..], m);
      DoublingStep(s);
      BoundStep(s, n);
      DoubledHead(s[0], n);
      DoubledAfter(s[0], n, Bound(s[1..], m));
      BoundConcat(doubled, rest, n);
      MarksConcat(doubled, rest);
    }
  }

  lemma NothingToBind(n: nat)
    ensures Text.ReplaceAll("", "'", "''") == "" && Bound("", n) == "" && Marks("") == 0
  {}

  lemma DoubledAfter(c: char, n: nat, tail: string)
    ensures Text.ReplaceAll(BoundChar(c, n) + tail, "'", "''")
         == (if c == '\'' then "''" else BoundChar(c, n)) + Text.ReplaceAll(tail, "'", "''")
  {
    hide BoundChar, Text.ReplaceAll;
    DoubledHead(c, n);
    if c == '\'' {
      DoublingStep("'" + tail);
      assert ("'" + tail)[1..] == tail;
    } else {
      Text.ReplaceSkips(BoundChar(c, n), tail, "'", "''");
    }
  }

  lemma BoundStep(s: string, n: nat)
    requires s != ""
    ensures Bound(s, n) == BoundChar(s[0], n) + Bound(s[1..], if s[0] == '?' then n + 1 else n)
    ensures Marks(s) == (if s[0] == '?' then 1 else 0) + Marks(s[1..])
  {}

  lemma DoubledHead(c: char, n: nat)
    ensures var doubled := if c == '\'' then "''" else [c];
            && Marks(doubled) == (if c == '?' then 1 else 0)
            && Bound(doubled, n) == if c == '\'' then "''" else BoundChar(c, n)
    ensures BoundChar('\'', n) == "'"
  {
    assert [c][1..] == "";
    if c == '\'' {
      OneQuote(n);
      assert "''"[1..] == "'";
    }
  }

  lemma {:induction false} MarksConcat(a: string, b: string)
    ensures Marks(a + b) == Marks(a) + Marks(b)
  {
    if a == "" {
      assert a + b == b;
    } else {
      assert (a + b)[1..] == a[1..] + b;
      MarksConcat(a[1..], b);
    }
  }

  /** Binding changes a text exactly when it holds a question mark for which there is a value. */
  lemma {:induction false} BoundIsSameIff(s: string, n: nat)
    ensures Bound(s, n) == s <==> '?' !in s || n > VALUES
    ensures |Bound(s, n)| >= |s|
    ensures '?' in s && n <= VALUES ==> |Bound(s, n)| > |s|
  {
    if s != "" {
      BoundIsSameIff(s[1..], if s[0] == '?' then n + 1 else n);
      assert s == [s[0]] + s[1..];
    }
  }

  lemma BoundQuote(key: string, n: nat)
    ensures Bound(Quote(key), n) == Quote(Bound(key, n))
  {
    hide Bound, Marks, Text.ReplaceAll;
    var doubled := Text.ReplaceAll(key, "'", "''");
    BoundDoubled(key, n);
    BoundBetweenQuotes(doubled, n);
  }

  lemma BoundBetweenQuotes(s: string, n: nat)
    ensures Bound("'" + s + "'", n) == "'" + Bound(s, n) + "'"
  {
    OneQuote(n);
    OneQuote(n + Marks(s));
    BoundBetween("'", s, n);
  }

  lemma BoundBetween(q: string, s: string, n: nat)
    requires Bound(q, n) == q && Marks(q) == 0 && Bound(q, n + Marks(s)) == q
    ensures Bound(q + s + q, n) == q + Bound(s, n) + q
  {
    hide Bound, Marks;
    assert q + s + q == q + (s + q);
    BoundConcat(q, s + q, n);
    BoundConcat(s, q, n);
  }

  lemma OneQuote(n: nat)
    ensures Bound("'", n) == "'" && Marks("'") == 0
  {
    assert "'"[1..] == "";
  }

  /** The statement as it is executed. */
  function Executed(table: string, key: string): string {
    Bound(FieldStatement(table, key), 1)
  }

  /** As executed, the statement's key literal reads as the key with its own question marks bound: as exactly the key if
      and only if the key holds no question mark (or the table's name uses all three values up). */
  lemma ExecutedStatementReadsKeyIff(table: string, key: string)
    ensures var n, start := 1 + Marks(Before(table)), |Bound(Before(table), 1)|;
            && start <= |Executed(table, key)|
            && ReadLiteral(Executed(table, key)[start..]) == Some((Bound(key, n), Bound(Behind(), n + Marks(Quote(key)))))
            && (Bound(key, n) == key <==> '?' !in key || n > VALUES)
  {
    hide Bound, Marks, Quote, Behind, Before, ReadLiteral;
    var n, before := 1 + Marks(Before(table)), Before(table);
    var literal, behind := Quote(Bound(key, n)), Bound(Behind(), n + Marks(Quote(key)));
    BoundIsSameIff(key, n);
    BoundQuote(key, n);
    BehindIsSeparated(n + Marks(Quote(key)));
    ReadsAsIff(literal + behind, Bound(key, n), behind);
    assert FieldStatement(table, key) == before + (Quote(key) + Behind());
    BoundConcat(before, Quote(key) + Behind(), 1);
    BoundConcat(Quote(key), Behind(), n);
    AfterPrefix(Bound(before, 1), literal + behind);
  }

  lemma AfterPrefix(a: string, b: string)
    ensures (a + b)[|a|..] == b
  {}

  lemma BehindIsSeparated(n: nat)
    ensures Separated(Bound(Behind(), n))
  {
    assert Behind()[0] == ',';
  }
}
