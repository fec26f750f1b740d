/** The runtime catalog (CharacterGenerator.ReadyToUse): the elements of the
    downloaded CharacterElementDatabase grouped by character, then by category,
    everything in order of first sighting. The nested Dictionaries of the source
    are ordered association lists here. */
module Catalog {
  import opened Seqs
  import opened Text
  import opened Outcomes
  import opened Fetch
  import opened Elements
  import opened BundleNames

  /** A category and its elements, in arrival order. */
  type Group = (string, seq<CharacterElement>)
  /** A character and its categories, in order of first sighting. */
  type Entry = (string, seq<Group>)
  /** sortedElements: character -> category -> elements. */
  type Table = seq<Entry>

  function CategoriesOf(t: Table, c: string): seq<Group> {
    var i := KeyIndex(t, c);
    if i < 0 then [] else t[i].1
  }

  function ElementsOf(t: Table, c: string, k: string): seq<CharacterElement> {
    var g := CategoriesOf(t, c);
    var j := KeyIndex(g, k);
    if j < 0 then [] else g[j].1
  }

  predicate HasCharacter(t: Table, c: string) {
    c in Keys(t)
  }

  predicate HasCategory(t: Table, c: string, k: string) {
    HasCharacter(t, c) && k in Keys(CategoriesOf(t, c))
  }

  /** Every character and every category occurs once, and every category has at
      least one element. */
  ghost predicate WellFormed(t: Table) {
    && Distinct(Keys(t))
    && forall i :: 0 <= i < |t| ==>
         && Distinct(Keys(t[i].1))
         && forall j :: 0 <= j < |t[i].1| ==> |t[i].1[j].1| > 0
  }

  // ----- the three insert-if-absent steps of the parse loop -----

  function AddCharacter(t: Table, c: string): (r: Table)
    ensures HasCharacter(r, c)
  {
    if c in Keys(t) then t
    else
      assert Keys(t + [(c, [])]) == Keys(t) + [c];
      t + [(c, [])]
  }

  function AddCategory(t: Table, c: string, k: string): (r: Table)
    requires HasCharacter(t, c)
    ensures HasCategory(r, c, k)
  {
    var i := KeyIndex(t, c);
    var g := t[i].1;
    if k in Keys(g) then t
    else
      var r := t[i := (c, g + [(k, [])])];
      KeyIndexUpdate(t, i, g + [(k, [])], c);
      assert Keys(g + [(k, [])]) == Keys(g) + [k];
      r
  }

  function AppendElement(t: Table, c: string, k: string, e: CharacterElement): Table
    requires HasCategory(t, c, k)
  {
    var i := KeyIndex(t, c);
    var g := t[i].1;
    var j := KeyIndex(g, k);
    t[i := (c, g[j := (k, g[j].1 + [e])])]
  }

  /** The effect of one loop iteration on sortedElements. */
  function Insert(t: Table, c: string, k: string, e: CharacterElement): Table {
    AppendElement(AddCategory(AddCharacter(t, c), c, k), c, k, e)
  }

  // ----- the catalog as a function of the element records -----

  /** The record's bundle name can be parsed: it has a '_'. */
  predicate Parses(e: CharacterElement) {
    '_' in e.bundleName
  }

  predicate AllParse(elems: seq<CharacterElement>) {
    forall i :: 0 <= i < |elems| ==> Parses(elems[i])
  }

  function CharacterOf(e: CharacterElement): string
    requires Parses(e)
  {
    ParseBundleName(e.bundleName).value.0
  }

  function CategoryOf(e: CharacterElement): string
    requires Parses(e)
  {
    ParseBundleName(e.bundleName).value.1
  }

  /** The table after the parse loop has consumed `elems`. */
  function Build(elems: seq<CharacterElement>): Table
    requires AllParse(elems)
  {
    if |elems| == 0 then []
    else
      var e := elems[|elems| - 1];
      Insert(Build(elems[..|elems| - 1]), CharacterOf(e), CategoryOf(e), e)
  }

  /** How many records the loop gets through before a bundle name without '_' makes it throw. */
  function ParsedPrefix(elems: seq<CharacterElement>): (n: nat)
    ensures n <= |elems| && AllParse(elems[..n])
    ensures n < |elems| ==> !Parses(elems[n])
  {
    if |elems| == 0 || !Parses(elems[0]) then 0
    else
      var n := 1 + ParsedPrefix(elems[1..]);
      assert forall i :: 1 <= i < n ==> elems[..n][i] == elems[1..][..n - 1][i - 1];
      n
  }

  lemma {:induction false} ParsedPrefixUnique(elems: seq<CharacterElement>, n: nat)
    requires n <= |elems| && AllParse(elems[..n])
    requires n < |elems| ==> !Parses(elems[n])
    ensures ParsedPrefix(elems) == n
    decreases n
  {
    if n > 0 {
      assert elems[..n][0] == elems[0];
      assert elems[1..][..n - 1] == elems[..n][1..];
      ParsedPrefixUnique(elems[1..], n - 1);
    }
  }

  // ----- independent descriptions of the result -----

  /** The records of character `c` and category `k`, in arrival order. */
  function Filter(elems: seq<CharacterElement>, c: string, k: string): seq<CharacterElement>
    requires AllParse(elems)
  {
    if |elems| == 0 then []
    else
      var e := elems[|elems| - 1];
      Filter(elems[..|elems| - 1], c, k) + (if CharacterOf(e) == c && CategoryOf(e) == k then [e] else [])
  }

  /** The character of every record, in arrival order. */
  function CharactersOf(elems: seq<CharacterElement>): (cs: seq<string>)
    requires AllParse(elems)
    ensures |cs| == |elems|
  {
    if |elems| == 0 then []
    else CharactersOf(elems[..|elems| - 1]) + [CharacterOf(elems[|elems| - 1])]
  }

  /** The category of every record of character `c`, in arrival order. */
  function CategoriesFor(elems: seq<CharacterElement>, c: string): seq<string>
    requires AllParse(elems)
  {
    if |elems| == 0 then []
    else
      var e := elems[|elems| - 1];
      CategoriesFor(elems[..|elems| - 1], c) + (if CharacterOf(e) == c then [CategoryOf(e)] else [])
  }

  lemma DedupSnoc<T>(s: seq<T>, x: T)
    ensures Dedup(s + [x]) == if x in Dedup(s) then Dedup(s) else Dedup(s) + [x]
  {
    assert (s + [x])[..|s|] == s;
  }

  lemma AllParsePrefix(elems: seq<CharacterElement>)
    requires AllParse(elems) && |elems| > 0
    ensures AllParse(elems[..|elems| - 1])
  {
    assert forall i :: 0 <= i < |elems| - 1 ==> elems[..|elems| - 1][i] == elems[i];
  }

  // ----- how each step changes the lookups -----

  lemma AddCharacterLookups(t: Table, c: string, x: string)
    ensures Keys(AddCharacter(t, c)) == if c in Keys(t) then Keys(t) else Keys(t) + [c]
    ensures CategoriesOf(AddCharacter(t, c), x) == CategoriesOf(t, x)
  {
    if c !in Keys(t) {
      assert Keys(t + [(c, [])]) == Keys(t) + [c];
      if x != c {
        KeyIndexAppend(t, x, c, []);
      }
    }
  }

  lemma AddCategoryLookups(t: Table, c: string, k: string, x: string)
    requires HasCharacter(t, c)
    ensures Keys(AddCategory(t, c, k)) == Keys(t)
    ensures CategoriesOf(AddCategory(t, c, k), x) ==
      if x == c && k !in Keys(CategoriesOf(t, c)) then CategoriesOf(t, c) + [(k, [])]
      else CategoriesOf(t, x)
  {
    var i := KeyIndex(t, c);
    var g := t[i].1;
    if k !in Keys(g) {
      KeyIndexUpdate(t, i, g + [(k, [])], x);
      assert Keys(t[i := (c, g + [(k, [])])]) == Keys(t);
    }
  }

  lemma AppendElementLookups(t: Table, c: string, k: string, e: CharacterElement, x: string)
    requires HasCategory(t, c, k)
    ensures Keys(AppendElement(t, c, k, e)) == Keys(t)
    ensures x != c ==> CategoriesOf(AppendElement(t, c, k, e), x) == CategoriesOf(t, x)
    ensures x == c ==>
      var g := CategoriesOf(t, c);
      var j := KeyIndex(g, k);
      CategoriesOf(AppendElement(t, c, k, e), x) == g[j := (k, g[j].1 + [e])]
  {
    var i := KeyIndex(t, c);
    var g := t[i].1;
    var j := KeyIndex(g, k);
    KeyIndexUpdate(t, i, g[j := (k, g[j].1 + [e])], x);
    assert Keys(t[i := (c, g[j := (k, g[j].1 + [e])])]) == Keys(t);
  }

  lemma GroupAppendLookups(g: seq<Group>, j: nat, k: string, e: CharacterElement, y: string)
    requires j < |g| && g[j].0 == k
    ensures Keys(g[j := (k, g[j].1 + [e])]) == Keys(g)
    ensures KeyIndex(g[j := (k, g[j].1 + [e])], y) == KeyIndex(g, y)
  {
    KeyIndexUpdate(g, j, g[j].1 + [e], y);
    assert Keys(g[j := (k, g[j].1 + [e])]) == Keys(g);
  }

  lemma InsertKeys(t: Table, c: string, k: string, e: CharacterElement)
    ensures Keys(Insert(t, c, k, e)) == if c in Keys(t) then Keys(t) else Keys(t) + [c]
  {
    AddCharacterLookups(t, c, c);
    var t1 := AddCharacter(t, c);
    AddCategoryLookups(t1, c, k, c);
    AppendElementLookups(AddCategory(t1, c, k), c, k, e, c);
  }

  lemma InsertCategories(t: Table, c: string, k: string, e: CharacterElement, x: string)
    ensures Keys(CategoriesOf(Insert(t, c, k, e), x)) ==
      if x != c then Keys(CategoriesOf(t, x))
      else if k in Keys(CategoriesOf(t, c)) then Keys(CategoriesOf(t, c))
      else Keys(CategoriesOf(t, c)) + [k]
  {
    AddCharacterLookups(t, c, x);
    var t1 := AddCharacter(t, c);
    AddCategoryLookups(t1, c, k, x);
    var t2 := AddCategory(t1, c, k);
    AppendElementLookups(t2, c, k, e, x);
    if x == c {
      var g := CategoriesOf(t2, c);
      var j := KeyIndex(g, k);
      GroupAppendLookups(g, j, k, e, k);
      var g1 := CategoriesOf(t1, c);
      if k !in Keys(g1) {
        assert g == g1 + [(k, [])];
        assert Keys(g) == Keys(g1) + [k];
      }
    }
  }

  lemma AddCharacterElements(t: Table, c: string, x: string, y: string)
    ensures ElementsOf(AddCharacter(t, c), x, y) == ElementsOf(t, x, y)
  {
    AddCharacterLookups(t, c, x);
  }

  lemma AddCategoryElements(t: Table, c: string, k: string, x: string, y: string)
    requires HasCharacter(t, c)
    ensures ElementsOf(AddCategory(t, c, k), x, y) == ElementsOf(t, x, y)
  {
    AddCategoryLookups(t, c, k, x);
    var g := CategoriesOf(t, c);
    if x == c && k !in Keys(g) {
      if y == k {
        assert KeyIndex(g + [(k, [])], k) == |g| by {
          assert Keys(g + [(k, [])]) == Keys(g) + [k];
        }
      } else {
        KeyIndexAppend(g, y, k, []);
      }
    }
  }

  lemma AppendElementElements(t: Table, c: string, k: string, e: CharacterElement, x: string, y: string)
    requires HasCategory(t, c, k)
    ensures ElementsOf(AppendElement(t, c, k, e), x, y) ==
      ElementsOf(t, x, y) + (if x == c && y == k then [e] else [])
  {
    AppendElementLookups(t, c, k, e, x);
    if x == c {
      var g := CategoriesOf(t, c);
      var j := KeyIndex(g, k);
      GroupAppendLookups(g, j, k, e, y);
    }
  }

  lemma InsertElements(t: Table, c: string, k: string, e: CharacterElement, x: string, y: string)
    ensures ElementsOf(Insert(t, c, k, e), x, y) ==
      ElementsOf(t, x, y) + (if x == c && y == k then [e] else [])
  {
    var t1 := AddCharacter(t, c);
    AddCharacterElements(t, c, x, y);
    var t2 := AddCategory(t1, c, k);
    AddCategoryElements(t1, c, k, x, y);
    AppendElementElements(t2, c, k, e, x, y);
  }

  ghost predicate GroupsWellFormed(g: seq<Group>) {
    Distinct(Keys(g)) && forall j :: 0 <= j < |g| ==> |g[j].1| > 0
  }

  lemma WellFormedAt(t: Table, c: string)
    requires WellFormed(t) && HasCharacter(t, c)
    ensures GroupsWellFormed(CategoriesOf(t, c))
  {
  }

  lemma WellFormedUpdate(t: Table, i: nat, g: seq<Group>)
    requires WellFormed(t) && i < |t| && GroupsWellFormed(g)
    ensures WellFormed(t[i := (t[i].0, g)])
  {
    assert Keys(t[i := (t[i].0, g)]) == Keys(t);
  }

  /** What one insert does to the category list of its character. */
  function GroupInsert(g: seq<Group>, k: string, e: CharacterElement): seq<Group> {
    var j := KeyIndex(g, k);
    if j < 0 then g + [(k, [e])] else g[j := (k, g[j].1 + [e])]
  }

  lemma GroupInsertWellFormed(g: seq<Group>, k: string, e: CharacterElement)
    requires GroupsWellFormed(g)
    ensures GroupsWellFormed(GroupInsert(g, k, e))
  {
    var j := KeyIndex(g, k);
    if j < 0 {
      assert Keys(g + [(k, [e])]) == Keys(g) + [k];
    } else {
      GroupAppendLookups(g, j, k, e, k);
    }
  }

  lemma AddCharacterWellFormed(t: Table, c: string)
    requires WellFormed(t)
    ensures WellFormed(AddCharacter(t, c))
  {
    if c !in Keys(t) {
      assert Keys(t + [(c, [])]) == Keys(t) + [c];
    }
  }

  /** After the character is present, the insert rewrites its entry in place. */
  lemma InsertInPlace(t: Table, c: string, k: string, e: CharacterElement)
    requires HasCharacter(t, c)
    ensures AppendElement(AddCategory(t, c, k), c, k, e) ==
      t[KeyIndex(t, c) := (c, GroupInsert(t[KeyIndex(t, c)].1, k, e))]
  {
    var i := KeyIndex(t, c);
    var g := t[i].1;
    if k !in Keys(g) {
      var h := g + [(k, [])];
      var t2 := t[i := (c, h)];
      assert AddCategory(t, c, k) == t2;
      KeyIndexUpdate(t, i, h, c);
      assert KeyIndex(t2, c) == i && t2[i].1 == h;
      assert KeyIndex(h, k) == |g| by {
        assert Keys(h) == Keys(g) + [k];
      }
      assert h[|g|].1 + [e] == [e];
      UpdateLast(g, (k, []), (k, [e]));
      assert t2[i := (c, g + [(k, [e])])] == t[i := (c, g + [(k, [e])])];
    }
  }

  lemma InsertWellFormed(t: Table, c: string, k: string, e: CharacterElement)
    requires WellFormed(t)
    ensures WellFormed(Insert(t, c, k, e))
  {
    AddCharacterWellFormed(t, c);
    var t1 := AddCharacter(t, c);
    InsertInPlace(t1, c, k, e);
    var i := KeyIndex(t1, c);
    WellFormedAt(t1, c);
    GroupInsertWellFormed(t1[i].1, k, e);
    WellFormedUpdate(t1, i, GroupInsert(t1[i].1, k, e));
  }

  // ----- what the parse loop produces -----

  /** Every (character, category) list holds exactly the records that parse to that
      pair, in arrival order. */
  lemma {:induction false} BuildElementsOf(elems: seq<CharacterElement>, c: string, k: string)
    requires AllParse(elems)
    ensures ElementsOf(Build(elems), c, k) == Filter(elems, c, k)
    decreases |elems|
  {
    if |elems| > 0 {
      var e := elems[|elems| - 1];
      AllParsePrefix(elems);
      BuildElementsOf(elems[..|elems| - 1], c, k);
      InsertElements(Build(elems[..|elems| - 1]), CharacterOf(e), CategoryOf(e), e, c, k);
    }
  }

  /** The characters of the table are the characters of the records, each once, in
      order of first sighting. */
  lemma {:induction false} BuildCharacters(elems: seq<CharacterElement>)
    requires AllParse(elems)
    ensures Keys(Build(elems)) == Dedup(CharactersOf(elems))
    decreases |elems|
  {
    if |elems| > 0 {
      var e := elems[|elems| - 1];
      AllParsePrefix(elems);
      BuildCharacters(elems[..|elems| - 1]);
      InsertKeys(Build(elems[..|elems| - 1]), CharacterOf(e), CategoryOf(e), e);
      DedupSnoc(CharactersOf(elems[..|elems| - 1]), CharacterOf(e));
    }
  }

  /** The categories of character `c` are the categories of its records, each once,
      in order of first sighting. */
  lemma {:induction false} BuildCategories(elems: seq<CharacterElement>, c: string)
    requires AllParse(elems)
    ensures Keys(CategoriesOf(Build(elems), c)) == Dedup(CategoriesFor(elems, c))
    decreases |elems|
  {
    if |elems| > 0 {
      var e := elems[|elems| - 1];
      var prev := elems[..|elems| - 1];
      AllParsePrefix(elems);
      var t := Build(prev);
      assert Build(elems) == Insert(t, CharacterOf(e), CategoryOf(e), e);
      BuildCategories(prev, c);
      InsertCategories(t, CharacterOf(e), CategoryOf(e), e, c);
      if CharacterOf(e) == c {
        assert CategoriesFor(elems, c) == CategoriesFor(prev, c) + [CategoryOf(e)];
        DedupSnoc(CategoriesFor(prev, c), CategoryOf(e));
      } else {
        assert CategoriesFor(elems, c) == CategoriesFor(prev, c);
      }
    }
  }

  lemma {:induction false} BuildWellFormed(elems: seq<CharacterElement>)
    requires AllParse(elems)
    ensures WellFormed(Build(elems))
    decreases |elems|
  {
    if |elems| > 0 {
      var e := elems[|elems| - 1];
      AllParsePrefix(elems);
      BuildWellFormed(elems[..|elems| - 1]);
      InsertWellFormed(Build(elems[..|elems| - 1]), CharacterOf(e), CategoryOf(e), e);
    }
  }

  /** One more record: the table grows by one insert, keeps its shape, and gains the
      record's character as a new key exactly when it is new. */
  lemma BuildSnoc(elems: seq<CharacterElement>, e: CharacterElement)
    requires AllParse(elems) && Parses(e) && WellFormed(Build(elems))
    ensures AllParse(elems + [e])
    ensures Build(elems + [e]) == Insert(Build(elems), CharacterOf(e), CategoryOf(e), e)
    ensures Keys(Build(elems + [e])) ==
      if CharacterOf(e) in Keys(Build(elems)) then Keys(Build(elems)) else Keys(Build(elems)) + [CharacterOf(e)]
    ensures WellFormed(Build(elems + [e]))
  {
    var s := elems + [e];
    assert s[..|s| - 1] == elems;
    assert forall i :: 0 <= i < |s| ==> Parses(s[i]);
    InsertKeys(Build(elems), CharacterOf(e), CategoryOf(e), e);
    InsertWellFormed(Build(elems), CharacterOf(e), CategoryOf(e), e);
  }

  /** `characters` lists the characters of a well-formed table, in its order. */
  ghost predicate Catalogued(table: Table, characters: seq<string>) {
    characters == Keys(table) && WellFormed(table)
  }

  /** The state of the parse loop of ReadyToUse after its first `n` records. */
  ghost predicate ParsedUpTo(content: seq<CharacterElement>, n: nat, table: Table, characters: seq<string>) {
    && n <= |content|
    && AllParse(content[..n])
    && table == Build(content[..n])
    && Catalogued(table, characters)
  }

  lemma ParseStep(content: seq<CharacterElement>, n: nat, table: Table, characters: seq<string>)
    requires ParsedUpTo(content, n, table, characters)
    requires n < |content| && Parses(content[n])
    ensures var e := content[n];
      ParsedUpTo(content, n + 1, Insert(table, CharacterOf(e), CategoryOf(e), e),
        if CharacterOf(e) in characters then characters else characters + [CharacterOf(e)])
  {
    assert content[..n + 1] == content[..n] + [content[n]];
    BuildSnoc(content[..n], content[n]);
  }

  /** The parse loop of ReadyToUse: each record's bundle name is split at '_' and
      '-', its character is added to the character list and it is filed under its
      character and category. It stops at the first record whose name has no '_'
      (where the source throws), after `n` records. */
  method ParseElements(content: seq<CharacterElement>) returns (table: Table, characters: seq<string>, n: nat)
    ensures n == ParsedPrefix(content)
    ensures ParsedUpTo(content, n, table, characters)
  {
    table, characters, n := [], [], 0;
    while n < |content|
      invariant ParsedUpTo(content, n, table, characters)
    {
      var element := content[n];
      var name := ParseBundleName(element.bundleName);
      if name.None? {
        // the bundle name has no second '_'-piece: the source throws here
        ParsedPrefixUnique(content, n);
        return;
      }
      var (character, category) := name.value;
      ParseStep(content, n, table, characters);
      if character !in characters {
        characters := characters + [character];
      }
      // each Add step of Insert leaves the table alone when the key is already there
      table := Insert(table, character, category, element);
      n := n + 1;
    }
    ParsedPrefixUnique(content, n);
  }

  /** Process-wide catalog state: the database download, sortedElements (None for
      the source's null) and availableCharacters. */
  class Database {
    const baseUrl: string
    var database: Handle?
    var sortedElements: Option<Table>
    var availableCharacters: seq<string>

    ghost predicate Valid()
      reads this
    {
      && (sortedElements.None? ==> availableCharacters == [])
      && (sortedElements.Some? ==>
            && database != null
            && Catalogued(sortedElements.value, availableCharacters))
    }

    constructor (baseUrl: string)
      ensures Valid() && this.baseUrl == baseUrl
      ensures database == null && sortedElements.None? && availableCharacters == []
    {
      this.baseUrl := baseUrl;
      database := null;
      sortedElements := None;
      availableCharacters := [];
    }

    /** ReadyToUse. `content` is the element list held by the downloaded database
        bundle. The download is started on the first call; the parse runs once, on
        the first call that finds the download done; every call after that answers
        true without parsing again. A record whose bundle name has no '_' makes the
        parse throw after sortedElements has been set, so the records before it stay
        in the catalog and later calls answer true. */
    method ReadyToUse(content: seq<CharacterElement>) returns (ready: bool, status: Status)
      requires Valid()
      modifies this
      ensures Valid()
      ensures database != null
      ensures old(database) != null ==> database == old(database)
      ensures old(database) == null ==>
        fresh(database) && !database.isDone &&
        database.url == baseUrl + "CharacterElementDatabase.assetbundle"
      ensures old(sortedElements).Some? ==>
        ready && status == Completed &&
        sortedElements == old(sortedElements) && availableCharacters == old(availableCharacters)
      ensures old(sortedElements).None? && !database.isDone ==>
        !ready && status == Completed && sortedElements.None?
      ensures old(sortedElements).None? && database.isDone ==>
        var n := ParsedPrefix(content);
        && sortedElements == Some(Build(content[..n]))
        && (n == |content| ==> ready && status == Completed)
        && (n < |content| ==> status == Threw(IndexOutOfRange))
    {
      if database == null {
        database := new Handle(baseUrl + "CharacterElementDatabase.assetbundle");
      }
      if sortedElements.Some? {
        return true, Completed;
      }
      if !database.isDone {
        return false, Completed;
      }
      ready, status := Parse(content);
    }

    /** The first call that finds the download done: publish the dictionary, then
        fill it. */
    method Parse(content: seq<CharacterElement>) returns (ready: bool, status: Status)
      requires Valid() && sortedElements.None? && database != null
      modifies this
      ensures Valid() && database == old(database)
      ensures var n := ParsedPrefix(content);
        && sortedElements == Some(Build(content[..n]))
        && (n == |content| ==> ready && status == Completed)
        && (n < |content| ==> status == Threw(IndexOutOfRange))
    {
      // The source publishes the dictionary before parsing and fills it in place,
      // so the records before a throw stay in it.
      var table, characters, n := ParseElements(content);
      sortedElements, availableCharacters := Some(table), characters;
      if n < |content| {
        return false, Threw(IndexOutOfRange);
      }
      return true, Completed;
    }
  }
}
