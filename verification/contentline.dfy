/** The shape of one calendar content line, `NAME *(";" PARAM) ":" VALUE`, in the simple form
    section 3.1 of RFC 5545 describes when no parameter value is quoted. `Parse` is the
    independent reader against which the renderers' output lines are checked. */
module ContentLine {
  import opened Base
  import opened Text

  datatype Line = Line(name: string, params: seq<string>, value: string)

  /** A name or parameter that needs no quoting: it holds neither delimiter. */
  predicate Plain(s: string) {
    ':' !in s && ';' !in s
  }

  function IndexOf(s: string, c: char): (i: nat)
    requires c in s
    ensures i < |s| && s[i] == c && c !in s[..i]
  {
    if s[0] == c then 0 else
      assert s[1..][..IndexOf(s[1..], c)] == s[..IndexOf(s[1..], c) + 1][1..];
      1 + IndexOf(s[1..], c)
  }

  /** Reads a line: everything before the first `:` is the name and its `;`-separated
      parameters, everything after it is the value, verbatim. */
  function Parse(s: string): Option<Line> {
    if ':' !in s then None
    else
      var i := IndexOf(s, ':');
      var head := Split(s[..i], ';');
      Some(Line(head[0], head[1..], s[i + 1..]))
  }

  /** The property name a line starts with: everything before its first delimiter. */
  function NameOf(s: string): string {
    if |s| == 0 || s[0] == ':' || s[0] == ';' then "" else [s[0]] + NameOf(s[1..])
  }

  /** The line a plain name and plain parameters produce with a value. */
  function Compose(name: string, params: seq<string>, value: string): string {
    Join([name] + params, ";") + ":" + value
  }

  lemma IndexOfPrefix(head: string, value: string)
    requires ':' !in head
    ensures ':' in head + ":" + value
    ensures IndexOf(head + ":" + value, ':') == |head|
  {
    var s := head + ":" + value;
    assert s[..|head|] == head;
    assert s[|head|] == ':';
  }

  /** Every line composed from a plain name and plain parameters parses back into exactly
      that name, those parameters and the value, whatever the value holds. */
  lemma ParseCompose(name: string, params: seq<string>, value: string)
    requires Plain(name)
    requires forall i :: 0 <= i < |params| ==> Plain(params[i])
    ensures Parse(Compose(name, params, value)) == Some(Line(name, params, value))
  {
    var parts := [name] + params;
    var head := Join(parts, ";");
    assert forall i :: 0 <= i < |parts| ==> Plain(parts[i]);
    JoinContains(parts, ";", ':');
    assert ':' !in head;
    IndexOfPrefix(head, value);
    var s := Compose(name, params, value);
    assert s[..|head|] == head;
    assert s[|head| + 1..] == value;
    SplitJoin(parts, ';');
  }

  /** A composed line is called by its name, whatever its parameters and value hold. */
  lemma NameOfCompose(name: string, params: seq<string>, value: string)
    requires Plain(name)
    ensures NameOf(Compose(name, params, value)) == name
  {
    var parts := [name] + params;
    if |params| == 0 {
      assert Compose(name, params, value) == name + [':'] + value;
      NameOfPrefix(name, ':', value);
    } else {
      var rest := Join(params, ";") + ":" + value;
      assert parts[1..] == params;
      assert Compose(name, params, value) == name + [';'] + rest;
      NameOfPrefix(name, ';', rest);
    }
  }

  /** The names of a list of lines, in order. */
  function Names(lines: seq<string>): seq<string> {
    if |lines| == 0 then [] else [NameOf(lines[0])] + Names(lines[1..])
  }

  /** The values of the lines called `name`, in order. */
  function Values(lines: seq<string>, name: string): seq<string> {
    if |lines| == 0 then []
    else
      var p := Parse(lines[0]);
      (if p.Some? && p.value.name == name then [p.value.value] else []) + Values(lines[1..], name)
  }

  lemma {:induction false} NamesAppend(a: seq<string>, b: seq<string>)
    ensures Names(a + b) == Names(a) + Names(b)
    decreases |a|
  {
    if |a| == 0 {
      assert a + b == b;
    } else {
      assert (a + b)[0] == a[0];
      assert (a + b)[1..] == a[1..] + b;
      NamesAppend(a[1..], b);
    }
  }

  lemma NamesSingle(line: string)
    ensures Names([line]) == [NameOf(line)]
  {
    assert [line][1..] == [];
  }

  lemma {:induction false} NamesIndex(lines: seq<string>)
    ensures |Names(lines)| == |lines|
    ensures forall i :: 0 <= i < |lines| ==> Names(lines)[i] == NameOf(lines[i])
    decreases |lines|
  {
    if |lines| > 0 {
      NamesIndex(lines[1..]);
    }
  }

  lemma {:induction false} ValuesAppend(a: seq<string>, b: seq<string>, name: string)
    ensures Values(a + b, name) == Values(a, name) + Values(b, name)
    decreases |a|
  {
    if |a| > 0 {
      assert (a + b)[0] == a[0];
      assert (a + b)[1..] == a[1..] + b;
      ValuesAppend(a[1..], b, name);
    } else {
      assert a + b == b;
    }
  }

  /** A line that starts with a plain name and a delimiter is called by that name, whatever
      follows. */
  lemma {:induction false} NameOfPrefix(name: string, d: char, rest: string)
    requires Plain(name) && (d == ':' || d == ';')
    ensures NameOf(name + [d] + rest) == name
    decreases |name|
  {
    var s := name + [d] + rest;
    if |name| > 0 {
      assert s[0] == name[0];
      assert s[1..] == name[1..] + [d] + rest;
      assert Plain(name[1..]);
      NameOfPrefix(name[1..], d, rest);
      assert [name[0]] + name[1..] == name;
    } else {
      assert s[0] == d;
    }
  }

  /** The name a line starts with is the name `Parse` reads from it. */
  lemma NameOfParse(s: string)
    requires Parse(s).Some?
    ensures NameOf(s) == Parse(s).value.name
  {
    var i := IndexOf(s, ':');
    var head := s[..i];
    assert s == head + [':'] + s[i + 1..];
    if ';' in head {
      NameOfParseParams(head, s[i + 1..]);
    } else {
      SplitFree(head, ';');
      NameOfPrefix(head, ':', s[i + 1..]);
    }
  }

  lemma NameOfParseParams(head: string, value: string)
    requires ':' !in head && ';' in head
    ensures NameOf(head + [':'] + value) == Split(head, ';')[0]
  {
    var j := IndexOf(head, ';');
    var name := head[..j];
    var rest := head[j + 1..];
    assert head == name + [';'] + rest;
    SplitCons(name, ';', rest);
    assert Plain(name) by {
      assert forall k :: 0 <= k < |name| ==> name[k] == head[k];
    }
    assert head + [':'] + value == name + [';'] + (rest + [':'] + value);
    NameOfPrefix(name, ';', rest + [':'] + value);
  }

  /** Lines none of which is called `name` have no value under it. */
  lemma {:induction false} ValuesAbsent(lines: seq<string>, name: string)
    requires name !in Names(lines)
    ensures Values(lines, name) == []
    decreases |lines|
  {
    if |lines| > 0 {
      assert Names(lines) == [NameOf(lines[0])] + Names(lines[1..]);
      if Parse(lines[0]).Some? {
        NameOfParse(lines[0]);
      }
      ValuesAbsent(lines[1..], name);
    }
  }

  lemma Values3(p1: seq<string>, p2: seq<string>, p3: seq<string>, name: string)
    ensures Values(p1 + p2 + p3, name) == Values(p1, name) + Values(p2, name) + Values(p3, name)
  {
    ValuesAppend(p1, p2, name);
    ValuesAppend(p1 + p2, p3, name);
  }

  lemma Values4(p1: seq<string>, p2: seq<string>, p3: seq<string>, p4: seq<string>, name: string)
    ensures Values(p1 + p2 + p3 + p4, name)
         == Values(p1, name) + Values(p2, name) + Values(p3, name) + Values(p4, name)
  {
    ValuesAppend(p1, p2, name);
    ValuesAppend(p1 + p2, p3, name);
    ValuesAppend(p1 + p2 + p3, p4, name);
  }

  lemma ValuesOne(line: string, l: Line, name: string)
    requires Parse(line) == Some(l)
    ensures Values([line], name) == if l.name == name then [l.value] else []
  {
    assert [line][1..] == [];
  }

  /** A value is read from inside its line, so every character of it occurs in some line. */
  lemma {:induction false} ValueCharInLine(lines: seq<string>, name: string, j: nat, c: char)
    requires j < |Values(lines, name)| && c in Values(lines, name)[j]
    ensures exists i :: 0 <= i < |lines| && c in lines[i]
    decreases |lines|
  {
    var p := Parse(lines[0]);
    var first := if p.Some? && p.value.name == name then [p.value.value] else [];
    assert Values(lines, name) == first + Values(lines[1..], name);
    if j < |first| {
      var v := p.value.value;
      var k :| 0 <= k < |v| && v[k] == c;
      assert v == lines[0][IndexOf(lines[0], ':') + 1..];
      assert lines[0][IndexOf(lines[0], ':') + 1 + k] == c;
    } else {
      ValueCharInLine(lines[1..], name, j - |first|, c);
      var i :| 0 <= i < |lines[1..]| && c in lines[1..][i];
      assert lines[1..][i] == lines[i + 1];
    }
  }
}
