// Save-file rules: reading a quoted dictionary from tokens, and matching the
// directory of a remote file against a slash-separated glob.
module SaveRules {
  import opened Wrappers
  import opened Vdf

  datatype ParseError = NoBrace | TruncatedDict | UnterminatedDict | BadDocument | TrailingData

  // --- The token parser -----------------------------------------------------

  // The dictionary from the token after its opening brace on.
  function ParseItems(tokens: seq<string>, index: nat, acc: Dict): (r: Result<(Dict, nat), ParseError>)
    ensures r.Ok? ==> index < r.value.1 <= |tokens|
    decreases |tokens| - index
  {
    if index >= |tokens| then Err(UnterminatedDict)
    else if tokens[index] == "}" then Ok((acc, index + 1))
    else if index + 1 >= |tokens| then Err(TruncatedDict)
    else if tokens[index + 1] == "{" then
      var (inner, next) :- ParseItems(tokens, index + 2, Empty);
      ParseItems(tokens, next, Put(acc, tokens[index], Sub(inner)))
    else ParseItems(tokens, index + 2, Put(acc, tokens[index], Text(tokens[index + 1])))
  }

  // _parse_vdf_dict
  function ParseDict(tokens: seq<string>, index: nat): Result<(Dict, nat), ParseError> {
    if index >= |tokens| || tokens[index] != "{" then Err(NoBrace) else ParseItems(tokens, index + 1, Empty)
  }

  // _read_vdf_dict on the tokens of a file: a name, and one dictionary to the end
  function ParseDocument(tokens: seq<string>): Result<Dict, ParseError> {
    if |tokens| < 2 || tokens[1] != "{" then Err(BadDocument)
    else
      var (d, next) :- ParseDict(tokens, 1);
      if next != |tokens| then Err(TrailingData) else Ok(d)
  }

  // The same parser as a loop.
  method ParseTokens(tokens: seq<string>, start: nat) returns (r: Result<(Dict, nat), ParseError>)
    ensures r == ParseDict(tokens, start)
    decreases |tokens| - start
  {
    if start >= |tokens| || tokens[start] != "{" {
      return Err(NoBrace);
    }
    var result, index := Empty, start + 1;
    while index < |tokens| && tokens[index] != "}"
      invariant start < index <= |tokens|
      invariant ParseDict(tokens, start) == ParseItems(tokens, index, result)
      decreases |tokens| - index
    {
      var key := tokens[index];
      index := index + 1;
      if index >= |tokens| {
        return Err(TruncatedDict);
      }
      if tokens[index] == "{" {
        var inner := ParseTokens(tokens, index);
        if inner.Err? {
          return Err(inner.error);
        }
        result := Put(result, key, Sub(inner.value.0));
        index := inner.value.1;
      } else {
        result := Put(result, key, Text(tokens[index]));
        index := index + 1;
      }
    }
    if index >= |tokens| {
      return Err(UnterminatedDict);
    }
    return Ok((result, index + 1));
  }

  // A dictionary as tokens.
  function Print(d: Dict): seq<string>
    decreases d, 1
  {
    ["{"] + PrintItems(d) + ["}"]
  }

  function PrintItems(d: Dict): seq<string>
    decreases d, 0
  {
    match d
    case Empty => []
    case Entry(key, Sub(inner), rest) => [key] + Print(inner) + PrintItems(rest)
    case Entry(key, Text(s), rest) => [key, s] + PrintItems(rest)
    case Entry(_, Num(_), rest) => PrintItems(rest)
  }

  // No key is a closing brace, no text an opening one, and nothing is a number.
  predicate Printable(d: Dict) {
    match d
    case Empty => true
    case Entry(key, Sub(inner), rest) => key != "}" && Printable(inner) && Printable(rest)
    case Entry(key, Text(s), rest) => key != "}" && s != "{" && Printable(rest)
    case Entry(_, Num(_), _) => false
  }

  // `part` occurs in `tokens` from `index` to `end`.
  ghost predicate Occurs(tokens: seq<string>, index: nat, end: nat, part: seq<string>) {
    index <= end <= |tokens| && tokens[index..end] == part
  }

  lemma {:induction false} OccursParts(tokens: seq<string>, index: nat, end: nat, a: seq<string>, b: seq<string>)
    requires Occurs(tokens, index, end, a + b)
    ensures Occurs(tokens, index, index + |a|, a) && Occurs(tokens, index + |a|, end, b)
  {
    assert (a + b)[..|a|] == a && (a + b)[|a|..] == b;
    assert tokens[index..index + |a|] == tokens[index..end][..|a|];
    assert tokens[index + |a|..end] == tokens[index..end][|a|..];
  }

  // One turn of the loop.
  lemma {:induction false} ParseText(
    tokens: seq<string>, index: nat, end: nat, key: string, s: string, rest: seq<string>, acc: Dict)
    requires key != "}" && s != "{" && Occurs(tokens, index, end, [key, s] + rest)
    ensures Occurs(tokens, index + 2, end, rest)
    ensures ParseItems(tokens, index, acc) == ParseItems(tokens, index + 2, Put(acc, key, Text(s)))
  {
  }

  lemma {:induction false} ParseSub(
    tokens: seq<string>, index: nat, next: nat, key: string, inner: Dict, acc: Dict)
    requires index + 1 < |tokens| && tokens[index] == key != "}" && tokens[index + 1] == "{"
    requires ParseItems(tokens, index + 2, Empty) == Ok((inner, next))
    ensures ParseItems(tokens, index, acc) == ParseItems(tokens, next, Put(acc, key, Sub(inner)))
  {
  }

  // Where the parts of a nested dictionary stand.
  lemma {:induction false} OccursSub(
    tokens: seq<string>, index: nat, end: nat, key: string, inner: seq<string>, rest: seq<string>)
    returns (next: nat)
    requires Occurs(tokens, index, end, [key] + (["{"] + inner + ["}"]) + rest)
    ensures index + 1 < |tokens| && tokens[index] == key && tokens[index + 1] == "{"
    ensures Occurs(tokens, index + 2, next, inner + ["}"]) && Occurs(tokens, next, end, rest)
  {
    next := index + 2 + |inner| + 1;
    assert [key] + (["{"] + inner + ["}"]) + rest == [key, "{"] + ((inner + ["}"]) + rest);
    OccursParts(tokens, index, end, [key, "{"], (inner + ["}"]) + rest);
    OccursParts(tokens, index + 2, end, inner + ["}"], rest);
    assert tokens[index] == tokens[index..index + 2][0] && tokens[index + 1] == tokens[index..index + 2][1];
  }

  lemma {:induction false} ItemsRoundTrip(tokens: seq<string>, index: nat, end: nat, d: Dict, acc: Dict)
    requires Proper(d) && Printable(d) && Fresh(d, acc)
    requires Occurs(tokens, index, end, PrintItems(d) + ["}"])
    ensures ParseItems(tokens, index, acc) == Ok((Append(acc, d), end))
    decreases d
  {
    hide Occurs;
    match d
    case Empty =>
      ParseEnd(tokens, index, end, acc);
      AppendEmpty(acc);
    case Entry(key, value, rest) =>
      FreshRest(key, value, rest, acc);
      PutFresh(acc, key, value, rest);
      match value {
        case Text(s) =>
          assert PrintItems(d) + ["}"] == [key, s] + (PrintItems(rest) + ["}"]);
          ParseText(tokens, index, end, key, s, PrintItems(rest) + ["}"], acc);
          ItemsRoundTrip(tokens, index + 2, end, rest, Put(acc, key, value));
        case Sub(inner) =>
          assert PrintItems(d) + ["}"] == [key] + (["{"] + PrintItems(inner) + ["}"]) + (PrintItems(rest) + ["}"]);
          var next := OccursSub(tokens, index, end, key, PrintItems(inner), PrintItems(rest) + ["}"]);
          ItemsRoundTrip(tokens, index + 2, next, inner, Empty);
          ParseSub(tokens, index, next, key, inner, acc);
          ItemsRoundTrip(tokens, next, end, rest, Put(acc, key, value));
      }
  }

  lemma {:induction false} ParseEnd(tokens: seq<string>, index: nat, end: nat, acc: Dict)
    requires Occurs(tokens, index, end, PrintItems(Empty) + ["}"])
    ensures ParseItems(tokens, index, acc) == Ok((acc, end))
  {
    assert tokens[index..end][0] == "}";
  }

  // Parsing the tokens of a dictionary gives it back, and the index past its
  // closing brace, at any place in a longer list.
  lemma {:induction false} ParsePrint(tokens: seq<string>, index: nat, end: nat, d: Dict)
    requires Proper(d) && Printable(d) && Occurs(tokens, index, end, Print(d))
    ensures ParseDict(tokens, index) == Ok((d, end))
  {
    assert Print(d) == ["{"] + (PrintItems(d) + ["}"]);
    OccursParts(tokens, index, end, ["{"], PrintItems(d) + ["}"]);
    assert tokens[index] == tokens[index..index + 1][0];
    ItemsRoundTrip(tokens, index + 1, end, d, Empty);
  }

  // Conversely, whatever the parser returns has distinct keys and can be
  // printed, so printing and parsing it again changes nothing.
  lemma {:induction false} ParsedItems(tokens: seq<string>, index: nat, acc: Dict)
    requires Proper(acc) && Printable(acc) && ParseItems(tokens, index, acc).Ok?
    ensures Proper(ParseItems(tokens, index, acc).value.0) && Printable(ParseItems(tokens, index, acc).value.0)
    decreases |tokens| - index
  {
    if tokens[index] != "}" {
      if tokens[index + 1] == "{" {
        var (inner, next) := ParseItems(tokens, index + 2, Empty).value;
        ParsedItems(tokens, index + 2, Empty);
        ProperPut(acc, tokens[index], Sub(inner));
        PrintablePut(acc, tokens[index], Sub(inner));
        ParsedItems(tokens, next, Put(acc, tokens[index], Sub(inner)));
      } else {
        ProperPut(acc, tokens[index], Text(tokens[index + 1]));
        PrintablePut(acc, tokens[index], Text(tokens[index + 1]));
        ParsedItems(tokens, index + 2, Put(acc, tokens[index], Text(tokens[index + 1])));
      }
    }
  }

  lemma {:induction false} PrintablePut(d: Dict, key: string, value: Value)
    requires Printable(d) && key != "}"
    requires (value.Sub? && Printable(value.dict)) || (value.Text? && value.text != "{")
    ensures Printable(Put(d, key, value))
  {
    if d.Entry? && d.key != key {
      PrintablePut(d.rest, key, value);
    }
  }

  lemma {:induction false} ParseAgain(tokens: seq<string>, index: nat)
    requires ParseDict(tokens, index).Ok?
    ensures var d := ParseDict(tokens, index).value.0;
            ParseDict(Print(d), 0) == Ok((d, |Print(d)|))
  {
    var d := ParseDict(tokens, index).value.0;
    ParsedItems(tokens, index + 1, Empty);
    assert Print(d)[0..|Print(d)|] == Print(d);
    ParsePrint(Print(d), 0, |Print(d)|, d);
  }

  // A whole document: a name and a dictionary, and nothing after it.
  lemma {:induction false} DocumentRoundTrip(name: string, d: Dict, rest: seq<string>)
    requires Proper(d) && Printable(d)
    ensures ParseDocument([name] + Print(d) + rest) == if rest == [] then Ok(d) else Err(TrailingData)
  {
    var tokens := [name] + Print(d) + rest;
    var end := 1 + |Print(d)|;
    assert tokens[1..end] == Print(d) && Print(d)[0] == "{";
    assert tokens[1] == tokens[1..end][0];
    ParsePrint(tokens, 1, end, d);
  }
}
