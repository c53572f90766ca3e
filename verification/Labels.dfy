/** Label rendering for the metrics page (`_escape` and `_labels` in app/metrics.py), and the reader of the text
    exposition format it has to satisfy. */
module Labels {
  import opened Wrappers
  import opened Text

  // ------------------------------------------------------------------ escaping

  /** Three replaces over the whole text, the backslash first. */
  function Escape(value: string): string {
    Replace(Replace(Replace(value, "\\", "\\\\"), "\"", "\\\""), "\n", "\\n")
  }

  /** The escape of one character on its own. */
  function EscapeChar(c: char): string {
    match c
    case '\\' => "\\\\"
    case '\"' => "\\\""
    case '\n' => "\\n"
    case _ => [c]
  }

  /** Escaping as a single pass over the characters. */
  function Mapped(value: string): string {
    if value == "" then "" else EscapeChar(value[0]) + Mapped(value[1..])
  }

  /** What the three replaces do to a one-character text. */
  lemma EscapeOne(c: char)
    ensures Escape([c]) == EscapeChar(c)
  {
    hide Replace;
    ReplaceOne(c, '\\', "\\\\");
    if c == '\\' {
      ReplaceTwo('\\', '\\', '\"', "\\\"");
      ReplaceTwo('\\', '\\', '\n', "\\n");
    } else {
      ReplaceOne(c, '\"', "\\\"");
      if c == '\"' {
        ReplaceTwo('\\', '\"', '\n', "\\n");
      } else {
        ReplaceOne(c, '\n', "\\n");
      }
    }
  }

  lemma ReplaceOne(c: char, target: char, with: string)
    ensures Replace([c], [target], with) == if c == target then with else [c]
  {
    hide Replace;
    ReplaceStep([c], target, with);
    ReplaceStep("", target, with);
    assert [c][1..] == "" && with + "" == with && [c] + "" == [c];
  }

  lemma ReplaceTwo(c: char, d: char, target: char, with: string)
    requires c != target && d != target
    ensures Replace([c, d], [target], with) == [c, d]
  {
    hide Replace;
    ReplaceOne(c, target, with);
    ReplaceOne(d, target, with);
    ReplaceChar([c], [d], target, with);
    assert [c] + [d] == [c, d];
  }

  lemma EscapeConcat(a: string, b: string)
    ensures Escape(a + b) == Escape(a) + Escape(b)
  {
    hide Replace;
    ReplaceConcat(a, b, "\\", "\\\\");
    var a1, b1 := Replace(a, "\\", "\\\\"), Replace(b, "\\", "\\\\");
    ReplaceConcat(a1, b1, "\"", "\\\"");
    ReplaceConcat(Replace(a1, "\"", "\\\""), Replace(b1, "\"", "\\\""), "\n", "\\n");
  }

  lemma ReplaceConcat(a: string, b: string, target: string, with: string)
    requires |target| == 1
    ensures Replace(a + b, target, with) == Replace(a, target, with) + Replace(b, target, with)
  {
    hide Replace;
    assert target == [target[0]];
    ReplaceChar(a, b, target[0], with);
  }

  /** In this order, the three replaces never touch each other's output: together they escape each character once. */
  lemma {:induction false} EscapeIsOnePass(value: string)
    ensures Escape(value) == Mapped(value)
  {
    hide Escape, EscapeChar;
    if value == "" {
      assert Escape("") == "" by { EscapeEmpty(); }
    } else {
      assert value == [value[0]] + value[1..];
      EscapeConcat([value[0]], value[1..]);
      EscapeOne(value[0]);
      EscapeIsOnePass(value[1..]);
    }
  }

  lemma EscapeEmpty()
    ensures Escape("") == ""
  {
  }

  // ------------------------------------------------------------------ reading it back

  /** A quoted value up to its closing quote, and what follows that quote. None when it never closes. */
  function ReadValue(s: string): Option<(string, string)> {
    if s == "" then None
    else if s[0] == '\"' then Some(("", s[1..]))
    else if s[0] == '\\' then
      if |s| < 2 then None
      else
        match ReadValue(s[2..])
        case None => None
        case Some((value, rest)) => Some(([if s[1] == 'n' then '\n' else s[1]] + value, rest))
    else
      match ReadValue(s[1..])
      case None => None
      case Some((value, rest)) => Some(([s[0]] + value, rest))
  }

  /** An escaped value between quotes reads back as itself, whatever comes after. */
  lemma {:induction false} ValueReadsBack(value: string, rest: string)
    ensures ReadValue(Mapped(value) + "\"" + rest) == Some((value, rest))
  {
    var s := Mapped(value) + "\"" + rest;
    if value == "" {
      assert s == "\"" + rest;
    } else {
      var e := EscapeChar(value[0]);
      assert s == e + (Mapped(value[1..]) + "\"" + rest);
      assert s[|e|..] == Mapped(value[1..]) + "\"" + rest;
      ValueReadsBack(value[1..], rest);
      assert value == [value[0]] + value[1..];
    }
  }

  /** Distinct values escape to distinct texts. */
  lemma EscapeIsInjective(a: string, b: string)
    requires Escape(a) == Escape(b)
    ensures a == b
  {
    hide Escape;
    EscapeIsOnePass(a);
    EscapeIsOnePass(b);
    ValueReadsBack(a, "");
    ValueReadsBack(b, "");
  }

  /** No line of the page is broken by a value, and a quote inside one is always preceded by a backslash. */
  lemma {:induction false} NothingUnescaped(value: string)
    ensures var e := Escape(value);
            '\n' !in e && forall i :: 0 <= i < |e| && e[i] == '\"' ==> i > 0 && e[i - 1] == '\\'
  {
    hide Escape, Mapped;
    EscapeIsOnePass(value);
    MappedIsClean(value);
  }

  lemma {:induction false} MappedIsClean(value: string)
    ensures var e := Mapped(value);
            '\n' !in e && forall i :: 0 <= i < |e| && e[i] == '\"' ==> i > 0 && e[i - 1] == '\\'
  {
    if value != "" { MappedIsClean(value[1..]); }
  }

  // ------------------------------------------------------------------ whole label sets

  datatype Label = Label(name: string, value: string)

  /** `_labels`: the pairs, comma separated, in braces. Nothing at all for no pairs. */
  function Render(pairs: seq<Label>): string {
    if pairs == [] then "" else "{" + Inner(pairs) + "}"
  }

  function Inner(pairs: seq<Label>): string
    requires pairs != []
  {
    RenderOne(pairs[0]) + if |pairs| == 1 then "" else "," + Inner(pairs[1..])
  }

  function RenderOne(pair: Label): string {
    pair.name + "=\"" + Escape(pair.value) + "\""
  }

  predicate IsLabelName(name: string) {
    name != "" && forall i :: 0 <= i < |name| ==>
      ('a' <= name[i] <= 'z') || ('A' <= name[i] <= 'Z') || ('0' <= name[i] <= '9') || name[i] == '_'
  }

  /** Reads `name="value"` pairs separated by commas, up to the closing brace, and what follows it. */
  function ReadPairs(s: string): Option<(seq<Label>, string)>
    decreases |s|
  {
    var k := Find(s, '=');
    if |s| < k + 2 || s[k + 1] != '\"' then None
    else
      match ReadValue(s[k + 2..])
      case None => None
      case Some((value, after)) =>
        var one := Label(s[..k], value);
        if |after| >= |s| || after == "" then None
        else if after[0] == '}' then Some(([one], after[1..]))
        else if after[0] != ',' then None
        else
          match ReadPairs(after[1..])
          case None => None
          case Some((more, rest)) => Some(([one] + more, rest))
  }

  /** Reading starts with the first pair. */
  lemma FirstReadsBack(pair: Label, tail: string)
    requires IsLabelName(pair.name) && tail != ""
    ensures var s := RenderOne(pair) + tail;
            ReadPairs(s) ==
              if tail[0] == '}' then Some(([pair], tail[1..]))
              else if tail[0] != ',' then None
              else match ReadPairs(tail[1..])
                   case None => None
                   case Some((more, rest)) => Some(([pair] + more, rest))
  {
    hide ReadValue, Escape, Find, IsLabelName;
    var Label(name, value) := pair;
    var s := RenderOne(pair) + tail;
    var quoted := Escape(value) + "\"" + tail;
    assert s == name + ['='] + ("\"" + quoted);
    NameHasNoEquals(name);
    FindAfter(name, '=', "\"" + quoted);
    assert s[..|name|] == name && s[|name| + 1] == '\"' && s[|name| + 2..] == quoted;
    EscapeIsOnePass(value);
    ValueReadsBack(value, tail);
  }

  /** A rendered label set reads back as exactly the pairs it was made of, and the sample's own text follows. */
  lemma {:induction false} LabelsReadBack(pairs: seq<Label>, rest: string)
    requires pairs != [] && forall p :: p in pairs ==> IsLabelName(p.name)
    ensures ReadPairs(Inner(pairs) + "}" + rest) == Some((pairs, rest))
  {
    hide ReadPairs, RenderOne, IsLabelName;
    assert pairs[0] in pairs;
    if |pairs| == 1 {
      FirstReadsBack(pairs[0], "}" + rest);
      assert Inner(pairs) + "}" + rest == RenderOne(pairs[0]) + ("}" + rest);
      assert ("}" + rest)[1..] == rest;
      assert pairs == [pairs[0]];
    } else {
      var more := Inner(pairs[1..]) + "}" + rest;
      LabelsReadBack(pairs[1..], rest);
      FirstReadsBack(pairs[0], "," + more);
      assert Inner(pairs) + "}" + rest == RenderOne(pairs[0]) + ("," + more);
      assert ("," + more)[1..] == more;
      assert pairs == [pairs[0]] + pairs[1..];
    }
  }

  lemma NameHasNoEquals(name: string)
    requires IsLabelName(name)
    ensures '=' !in name
  {
  }

  /** Two series of a family are told apart exactly by their labels. */
  lemma RenderIsInjective(a: seq<Label>, b: seq<Label>)
    requires forall p :: p in a + b ==> IsLabelName(p.name)
    ensures Render(a) == Render(b) <==> a == b
  {
    hide Inner, IsLabelName, ReadPairs;
    if a != [] && b != [] {
      LabelsReadBack(a, "");
      LabelsReadBack(b, "");
      assert Render(a)[1..] == Inner(a) + "}" + "";
      assert Render(b)[1..] == Inner(b) + "}" + "";
    }
  }
}
