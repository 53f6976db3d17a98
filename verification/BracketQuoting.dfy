/**
 T-SQL bracket quoting (connection.py, `_quote_name`) against a left-to-right reader of bracketed
 identifiers: `[`, then characters with `]]` standing for `]`, up to a single `]`.
 */
module BracketQuoting {
  import opened Options

  /** name.replace("]", "]]") */
  function DoubleClosing(name: string): string {
    if name == "" then ""
    else (if name[0] == ']' then "]]" else [name[0]]) + DoubleClosing(name[1..])
  }

  function QuoteName(name: string): string { "[" + DoubleClosing(name) + "]" }

  /** What `query_in_database` sends. */
  function InDatabase(database: string, sql: string): string {
    "USE " + QuoteName(database) + ";\n" + sql
  }

  datatype Lexed = Lexed(name: string, rest: string)

  function Prepend(c: char, r: Option<Lexed>): Option<Lexed> {
    if r.None? then None else Some(Lexed([c] + r.value.name, r.value.rest))
  }

  function ReadBody(input: string): Option<Lexed> {
    if input == "" then None
    else if input[0] != ']' then Prepend(input[0], ReadBody(input[1..]))
    else if |input| > 1 && input[1] == ']' then Prepend(']', ReadBody(input[2..]))
    else Some(Lexed("", input[1..]))
  }

  /** Reads a bracketed identifier off the front; None when it never closes. */
  function ReadIdentifier(input: string): Option<Lexed> {
    if input == "" || input[0] != '[' then None else ReadBody(input[1..])
  }

  ghost predicate StartsClosed(s: string) { s != "" && s[0] == ']' }

  lemma PrependSplits(name: string, rest: string, r: Option<Lexed>)
    requires name != ""
    ensures Prepend(name[0], r) == Some(Lexed(name, rest)) <==> r == Some(Lexed(name[1..], rest))
  {
    assert name == [name[0]] + name[1..];
    if r.Some? && [name[0]] + r.value.name == name {
      assert ([name[0]] + r.value.name)[1..] == r.value.name;
    }
  }

  lemma {:induction false} BodyReadsBack(name: string, rest: string)
    ensures ReadBody(DoubleClosing(name) + "]" + rest) == Some(Lexed(name, rest)) <==> !StartsClosed(rest)
  {
    var input := DoubleClosing(name) + "]" + rest;
    if name == "" {
      assert input == "]" + rest;
      if StartsClosed(rest) {
        assert input[1] == ']';
      }
    } else {
      BodyReadsBack(name[1..], rest);
      var tail := DoubleClosing(name[1..]) + "]" + rest;
      if name[0] == ']' {
        assert input == "]]" + tail;
        assert input[2..] == tail;
      } else {
        assert input == [name[0]] + tail;
        assert input[1..] == tail;
      }
      PrependSplits(name, rest, ReadBody(tail));
    }
  }

  /**
   For every name and every following text, the reader gets back exactly that name and that text --
   unless the text itself begins with a closing bracket, and then it never does.
   */
  lemma QuotedNameReadsBack(name: string, rest: string)
    ensures ReadIdentifier(QuoteName(name) + rest) == Some(Lexed(name, rest)) <==> !StartsClosed(rest)
  {
    var input := QuoteName(name) + rest;
    assert input[1..] == DoubleClosing(name) + "]" + rest;
    BodyReadsBack(name, rest);
  }

  /** The batch for a database always names that database and leaves the caller's SQL whole. */
  lemma UseNamesThatDatabase(database: string, sql: string)
    ensures InDatabase(database, sql)[..4] == "USE "
    ensures ReadIdentifier(InDatabase(database, sql)[4..]) == Some(Lexed(database, ";\n" + sql))
  {
    var rest := ";\n" + sql;
    assert InDatabase(database, sql) == "USE " + (QuoteName(database) + rest);
    QuotedNameReadsBack(database, rest);
  }

  lemma DoubleOne(c: char, name: string)
    ensures DoubleClosing([c] + name) == (if c == ']' then "]]" else [c]) + DoubleClosing(name)
  {
    assert ([c] + name)[1..] == name;
  }

  lemma {:induction false} BodyWasQuoted(input: string)
    ensures ReadBody(input).Some? ==>
              input == DoubleClosing(ReadBody(input).value.name) + "]" + ReadBody(input).value.rest
  {
    if ReadBody(input).Some? {
      if input[0] != ']' {
        BodyWasQuoted(input[1..]);
        DoubleOne(input[0], ReadBody(input[1..]).value.name);
      } else if |input| > 1 && input[1] == ']' {
        BodyWasQuoted(input[2..]);
        DoubleOne(']', ReadBody(input[2..]).value.name);
        assert input == "]]" + input[2..];
      } else {
        assert input == "]" + input[1..];
      }
    }
  }

  /** The other way round: whatever the reader accepts is some quoted name and what followed it. */
  lemma OnlyQuotedNamesAreRead(input: string)
    ensures ReadIdentifier(input).Some? ==>
              input == QuoteName(ReadIdentifier(input).value.name) + ReadIdentifier(input).value.rest
  {
    if ReadIdentifier(input).Some? {
      BodyWasQuoted(input[1..]);
      assert input == "[" + input[1..];
    }
  }

  /** Two databases never share a quoted name. */
  lemma QuotingIsInjective(a: string, b: string)
    ensures QuoteName(a) == QuoteName(b) <==> a == b
  {
    QuotedNameReadsBack(a, "");
    QuotedNameReadsBack(b, "");
    assert QuoteName(a) + "" == QuoteName(a) && QuoteName(b) + "" == QuoteName(b);
  }
}
