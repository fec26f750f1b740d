/** The configuration and its string form (GetConfig / PrepareConfig): the
    character, then one "|category|element" pair per selected category. */
module ConfigCodec {
  import opened Seqs
  import opened Text
  import opened Outcomes
  import opened Elements
  import opened Catalog

  /** currentConfiguration: category -> selected element, in insertion order. */
  type Config = seq<(string, CharacterElement)>

  /** The configuration invariant of a generator: no category twice, every category
      is one of character `c`, and every selected element is in that category's list. */
  ghost predicate ConfigValid(t: Table, c: string, config: Config) {
    && Distinct(Keys(config))
    && forall i :: 0 <= i < |config| ==>
         HasCategory(t, c, config[i].0) && config[i].1 in ElementsOf(t, c, config[i].0)
  }

  // ----- encoding -----

  /** GetConfig: the character followed by "|" + category + "|" + element name for
      each entry, in configuration order. */
  function Encode(character: string, config: Config): (s: string)
    ensures StartsWith(s, character)
    ensures |config| > 0 ==> |s| > |character| && s[|character|] == '|'
    ensures |s| >= |character| + 2 * |config|
  {
    if |config| == 0 then character
    else
      var (k, e) := config[|config| - 1];
      var prefix := Encode(character, config[..|config| - 1]);
      AppendFour(prefix, "|", k, "|" + e.name);
      assert (prefix + "|" + k + "|" + e.name)[..|prefix|] == prefix;
      prefix + "|" + k + "|" + e.name
  }

  /** The category and element-name tokens of a configuration, in order. */
  function Pairs(config: Config): (ps: seq<string>)
    ensures |ps| == 2 * |config|
  {
    if |config| == 0 then [] else [config[0].0, config[0].1.name] + Pairs(config[1..])
  }

  /** The tokens of the configuration string. */
  function Tokens(character: string, config: Config): seq<string> {
    [character] + Pairs(config)
  }

  lemma {:induction false} PairsSnoc(config: Config, k: string, e: CharacterElement)
    ensures Pairs(config + [(k, e)]) == Pairs(config) + [k, e.name]
  {
    if |config| > 0 {
      assert (config + [(k, e)])[1..] == config[1..] + [(k, e)];
      PairsSnoc(config[1..], k, e);
    }
  }

  lemma {:induction false} JoinSnoc(parts: seq<string>, x: string, sep: char)
    requires |parts| >= 1
    ensures Join(parts + [x], sep) == Join(parts, sep) + [sep] + x
    decreases |parts|
  {
    if |parts| > 1 {
      assert (parts + [x])[1..] == parts[1..] + [x];
      JoinSnoc(parts[1..], x, sep);
    } else {
      assert (parts + [x])[1..] == [x];
    }
  }

  /** The string is the tokens joined by '|'. */
  lemma {:induction false} EncodeIsJoin(character: string, config: Config)
    ensures Encode(character, config) == Join(Tokens(character, config), '|')
  {
    if |config| > 0 {
      var n := |config|;
      var (k, e) := config[n - 1];
      var init := config[..n - 1];
      EncodeIsJoin(character, init);
      assert init + [(k, e)] == config;
      PairsSnoc(init, k, e);
      assert Tokens(character, config) == Tokens(character, init) + [k] + [e.name];
      JoinSnoc(Tokens(character, init), k, '|');
      JoinSnoc(Tokens(character, init) + [k], e.name, '|');
    }
  }

  // ----- decoding -----

  /** The first element of the list with this name (the search loop of PrepareConfig). */
  function FindByName(es: seq<CharacterElement>, name: string): (r: Option<CharacterElement>)
    ensures r.None? <==> forall k :: 0 <= k < |es| ==> es[k].name != name
    ensures r.Some? ==> r.value in es && r.value.name == name
  {
    if |es| == 0 then None
    else if es[0].name == name then Some(es[0])
    else
      assert forall k :: 1 <= k < |es| ==> es[k] == es[1..][k - 1];
      FindByName(es[1..], name)
  }

  /** The element at the first position with the name is the one found. */
  lemma {:induction false} FindByNameFirst(es: seq<CharacterElement>, name: string, i: nat)
    requires i < |es| && es[i].name == name
    requires forall k :: 0 <= k < i ==> es[k].name != name
    ensures FindByName(es, name) == Some(es[i])
  {
    if i > 0 {
      FindByNameFirst(es[1..], name, i - 1);
    }
  }

  /** What the parse loop leaves behind: the configuration built so far, and how it ended. */
  datatype Decoded = Decoded(config: Config, status: Status)

  /** The loop of PrepareConfig over the tokens `rest` still to read, with `acc`
      already in the configuration. Each pair reads two tokens (the second may be
      missing), looks up the character and the category, searches the element by
      name, and adds it under a category that must not be there yet. */
  function DecodeFrom(t: Table, c: string, rest: seq<string>, acc: Config): Decoded
    decreases |rest|
  {
    if |rest| == 0 then Decoded(acc, Completed)
    else if |rest| == 1 then Decoded(acc, Threw(IndexOutOfRange))
    else if !HasCharacter(t, c) || !HasCategory(t, c, rest[0]) then Decoded(acc, Threw(KeyNotFound))
    else
      match FindByName(ElementsOf(t, c, rest[0]), rest[1])
      case None => Decoded(acc, Threw(ElementNotFound(rest[1])))
      case Some(e) =>
        if rest[0] in Keys(acc) then Decoded(acc, Threw(DuplicateKey))
        else DecodeFrom(t, c, rest[2..], acc + [(rest[0], e)])
  }

  /** PrepareConfig: the character is the first token; the loop reads the others. */
  function Decode(t: Table, s: string): (r: (string, Decoded))
    ensures r.0 == Before(Lower(s), '|') && IsLower(r.0) && '|' !in r.0
    ensures r.1.config != [] ==> HasCharacter(t, r.0)
  {
    var settings := Split(Lower(s), '|');
    SplitFirst(Lower(s), '|');
    LowerPrefix(s, settings[0]);
    DecodeFromValid(t, settings[0], settings[1..], []);
    (settings[0], DecodeFrom(t, settings[0], settings[1..], []))
  }

  /** The loop only appends to the configuration, only entries that keep it valid, and
      completes only when the tokens come in whole pairs. */
  lemma {:induction false} DecodeFromValid(t: Table, c: string, rest: seq<string>, acc: Config)
    requires ConfigValid(t, c, acc)
    ensures var r := DecodeFrom(t, c, rest, acc);
      && ConfigValid(t, c, r.config)
      && |acc| <= |r.config| && r.config[..|acc|] == acc
      && (r.status == Completed ==> |rest| == 2 * (|r.config| - |acc|))
    decreases |rest|
  {
    var r := DecodeFrom(t, c, rest, acc);
    if |rest| >= 2 && HasCharacter(t, c) && HasCategory(t, c, rest[0]) {
      var k := rest[0];
      var found := FindByName(ElementsOf(t, c, k), rest[1]);
      if found.Some? && k !in Keys(acc) {
        var acc' := acc + [(k, found.value)];
        assert r == DecodeFrom(t, c, rest[2..], acc');
        ConfigValidSnoc(t, c, acc, k, found.value);
        DecodeFromValid(t, c, rest[2..], acc');
        assert r.config[..|acc|] == r.config[..|acc'|][..|acc|];
      } else {
        assert r.config == acc && r.status != Completed;
      }
    } else {
      assert r.config == acc && (r.status == Completed ==> |rest| == 0);
    }
    assert acc[..|acc|] == acc;
  }

  lemma ConfigValidSnoc(t: Table, c: string, acc: Config, k: string, e: CharacterElement)
    requires ConfigValid(t, c, acc)
    requires HasCategory(t, c, k) && e in ElementsOf(t, c, k) && k !in Keys(acc)
    ensures ConfigValid(t, c, acc + [(k, e)])
  {
    assert Keys(acc + [(k, e)]) == Keys(acc) + [k];
  }

  /** A decoded configuration is valid, and a completed decode read an odd number of tokens. */
  lemma DecodeValid(t: Table, s: string)
    ensures var (c, r) := Decode(t, s);
      && ConfigValid(t, c, r.config)
      && (r.status == Completed ==> |Split(Lower(s), '|')| == 1 + 2 * |r.config|)
  {
    var settings := Split(Lower(s), '|');
    DecodeFromValid(t, settings[0], settings[1..], []);
  }

  /** The text of a configuration: lower case, without '|'. */
  ghost predicate PlainText(character: string, config: Config) {
    && IsLower(character) && '|' !in character
    && forall i :: 0 <= i < |config| ==>
         && IsLower(config[i].0) && '|' !in config[i].0
         && IsLower(config[i].1.name) && '|' !in config[i].1.name
  }

  /** Each selected element is the first one of its category's list with its name. */
  ghost predicate FoundByName(t: Table, character: string, config: Config) {
    forall i :: 0 <= i < |config| ==>
      FindByName(ElementsOf(t, character, config[i].0), config[i].1.name) == Some(config[i].1)
  }

  /** The conditions under which a configuration survives the round trip through its
      string: plain text, no category twice, and every element found by its name. */
  ghost predicate Restorable(t: Table, character: string, config: Config) {
    PlainText(character, config) && Distinct(Keys(config)) && FoundByName(t, character, config)
  }

  lemma LowerConcat(a: string, b: string)
    requires IsLower(a) && IsLower(b)
    ensures IsLower(a + b)
  {
    assert forall i :: |a| <= i < |a + b| ==> (a + b)[i] == b[i - |a|];
  }

  lemma {:induction false} EncodeIsLower(character: string, config: Config)
    requires PlainText(character, config)
    ensures IsLower(Encode(character, config))
  {
    if |config| > 0 {
      var n := |config|;
      var (k, e) := config[n - 1];
      var init := config[..n - 1];
      assert PlainText(character, init);
      EncodeIsLower(character, init);
      var s := Encode(character, init);
      assert IsLower("|");
      LowerConcat(s, "|");
      LowerConcat(s + "|", k);
      LowerConcat(s + "|" + k, "|");
      LowerConcat(s + "|" + k + "|", e.name);
    }
  }

  lemma {:induction false} PairsPlain(config: Config)
    requires forall i :: 0 <= i < |config| ==> '|' !in config[i].0 && '|' !in config[i].1.name
    ensures forall j :: 0 <= j < |Pairs(config)| ==> '|' !in Pairs(config)[j]
  {
    if |config| > 0 {
      var tail := config[1..];
      assert forall i :: 0 <= i < |tail| ==> tail[i] == config[i + 1];
      PairsPlain(tail);
      assert Pairs(config) == [config[0].0, config[0].1.name] + Pairs(tail);
    }
  }

  /** An element found in a list of the table means the character and the category exist. */
  lemma ElementsOfFound(t: Table, c: string, k: string)
    requires |ElementsOf(t, c, k)| > 0
    ensures HasCharacter(t, c) && HasCategory(t, c, k)
  {
  }

  /** One pair read without an exception. */
  lemma DistinctKeysAppend(acc: Config, config: Config)
    requires Distinct(Keys(acc + config)) && |config| > 0
    ensures config[0].0 !in Keys(acc)
  {
    var ks := Keys(acc + config);
    assert ks[|acc|] == config[0].0;
    assert forall j :: 0 <= j < |acc| ==> Keys(acc)[j] == ks[j];
  }

  lemma FoundByNameTail(t: Table, c: string, config: Config)
    requires FoundByName(t, c, config) && |config| > 0
    ensures FindByName(ElementsOf(t, c, config[0].0), config[0].1.name) == Some(config[0].1)
    ensures FoundByName(t, c, config[1..])
  {
    assert forall i :: 0 <= i < |config| - 1 ==> config[1..][i] == config[i + 1];
  }

  lemma AppendRest<T>(acc: seq<T>, x: T, s: seq<T>)
    requires |s| > 0 && s[0] == x
    ensures acc + [x] + s[1..] == acc + s
  {
    assert [x] + s[1..] == s;
  }

  /** One pair read without an exception: the loop moves on two tokens with the entry added. */
  lemma DecodeStep(t: Table, c: string, rest: seq<string>, acc: Config, e: CharacterElement)
    requires |rest| >= 2 && rest[0] !in Keys(acc)
    requires FindByName(ElementsOf(t, c, rest[0]), rest[1]) == Some(e)
    ensures DecodeFrom(t, c, rest, acc) == DecodeFrom(t, c, rest[2..], acc + [(rest[0], e)])
  {
    ElementsOfFound(t, c, rest[0]);
  }

  lemma PairsCons(config: Config)
    requires |config| > 0
    ensures Pairs(config) == [config[0].0, config[0].1.name] + Pairs(config[1..])
  {
  }

  /** The pair loop reads back every entry, in order, from the tokens of the configuration. */
  lemma {:induction false} DecodePairs(t: Table, c: string, acc: Config, config: Config)
    requires Distinct(Keys(acc + config)) && FoundByName(t, c, config)
    ensures DecodeFrom(t, c, Pairs(config), acc) == Decoded(acc + config, Completed)
    decreases |config|
  {
    if |config| == 0 {
      assert acc + config == acc;
    } else {
      var k, e, tail := config[0].0, config[0].1, config[1..];
      var rest := [k, e.name] + Pairs(tail);
      PairsCons(config);
      DistinctKeysAppend(acc, config);
      FoundByNameTail(t, c, config);
      assert rest[0] == k && rest[1] == e.name && rest[2..] == Pairs(tail);
      DecodeStep(t, c, rest, acc, e);
      AppendRest(acc, (k, e), config);
      DecodePairs(t, c, acc + [(k, e)], tail);
    }
  }

  /** The tokens the restore splits the string of a configuration into. */
  lemma SplitEncode(character: string, config: Config)
    requires PlainText(character, config)
    ensures Split(Lower(Encode(character, config)), '|') == Tokens(character, config)
  {
    var s := Encode(character, config);
    EncodeIsLower(character, config);
    LowerOfLower(s);
    EncodeIsJoin(character, config);
    PairsPlain(config);
    var tokens := Tokens(character, config);
    assert forall j :: 1 <= j < |tokens| ==> tokens[j] == Pairs(config)[j - 1];
    SplitJoin(tokens, '|');
  }

  /** Round trip: restoring the string of a configuration gives back the character
      and the same entries in the same order, without an exception. */
  lemma DecodeEncode(t: Table, character: string, config: Config)
    requires Restorable(t, character, config)
    ensures Decode(t, Encode(character, config)) == (character, Decoded(config, Completed))
  {
    SplitEncode(character, config);
    var tokens := Tokens(character, config);
    assert tokens[0] == character && tokens[1..] == Pairs(config);
    DecodePairs(t, character, [], config);
    assert [] + config == config;
  }
}
