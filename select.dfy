/** `select`: turning a list of dictionary keys into a mapping from prop names
    to keys, and passing a ready-made mapping through. */
module Select {
  import opened JsValues
  import opened Strings

  /** The props of a `<Text>` element: `children` is its content, used as the
      fallback text when no `fallback` prop is given. */
  datatype TextProps = TextProps(id: string, fields: Option<Dict>, plural: Option<int>,
                                 fallback: Option<Value>, children: Option<Value>)

  /** A prop value as the translation of a mapping sees it: a dictionary key,
      a `<Text>` element, or anything else (of which only its truthiness
      matters). */
  datatype Entry =
    | Id(key: string)
    | TextNode(props: TextProps)
    | Other(truthy: bool)

  /** What `select` is given: nothing, a comma-separated string of keys, an
      array of keys, or an object mapping prop names to entries. */
  datatype Properties =
    | Missing
    | Names(list: string)
    | NameList(names: seq<string>)
    | Mapping(entries: map<string, Entry>)

  /** One step of the loop: the trimmed key, when it is not empty, stored
      under its last dot-segment. */
  function Pick(selected: map<string, Entry>, name: string): map<string, Entry> {
    var val := Trim(name);
    if val == "" then selected else selected[LastPiece(val, '.') := Id(val)]
  }

  /** The keys in `names` picked up in order, a later one replacing an
      earlier one with the same last segment. */
  function SelectNames(names: seq<string>): map<string, Entry>
    decreases |names|
  {
    if names == [] then map[] else Pick(SelectNames(names[..|names| - 1]), names[|names| - 1])
  }

  /** `names[i]` is selected under the prop name `k`. */
  predicate Selects(names: seq<string>, i: int, k: string) {
    0 <= i < |names| && Trim(names[i]) != "" && LastPiece(Trim(names[i]), '.') == k
  }

  /** `names[i]` is the last entry selected under `k`. */
  predicate LastSelects(names: seq<string>, i: int, k: string) {
    Selects(names, i, k) && forall j :: i < j < |names| ==> !Selects(names, j, k)
  }

  /** The result of `select(properties)`. */
  function Selected(properties: Properties): map<string, Entry> {
    match properties
    case Missing => map[]
    case Names(list) => if list == "" then map[] else SelectNames(Split(list, ','))
    case NameList(names) => SelectNames(names)
    case Mapping(entries) => entries
  }

  /** `select(properties)`: `properties || {}`, a string split on commas, and
      then, for an array, a fresh object filled in an indexed loop. */
  method Select(properties: Properties) returns (selected: map<string, Entry>)
    ensures selected == Selected(properties)
  {
    var names: seq<string>;
    match properties {
      case Missing =>
        return map[];
      case Mapping(entries) =>
        return entries;
      case Names(list) =>
        if list == "" {
          return map[];
        }
        names := Split(list, ',');
      case NameList(l) =>
        names := l;
    }
    selected := map[];
    for i := 0 to |names|
      invariant selected == SelectNames(names[..i])
    {
      assert names[..i + 1][..i] == names[..i];
      var val := Trim(names[i]);
      if val != "" {
        selected := selected[LastPiece(val, '.') := Id(val)];
      }
    }
    assert names[..|names|] == names;
  }

  /** The prop names are exactly the last dot-segments of the non-empty keys,
      every entry is the key itself, and where keys share a last segment the
      last of them wins. */
  lemma {:induction false} SelectNamesSpec(names: seq<string>)
    ensures forall i, k :: Selects(names, i, k) ==> k in SelectNames(names)
    ensures forall i, k :: LastSelects(names, i, k) ==> SelectNames(names)[k] == Id(Trim(names[i]))
    ensures forall k :: k in SelectNames(names) ==> exists i :: Selects(names, i, k)
    decreases |names|
  {
    if names != [] {
      var n := |names| - 1;
      var init := names[..n];
      var m := SelectNames(init);
      var val := Trim(names[n]);
      SelectNamesSpec(init);
      assert SelectNames(names) == Pick(m, names[n]);
      forall i, k | Selects(names, i, k)
        ensures k in SelectNames(names)
      {
        if i < n {
          assert init[i] == names[i];
          assert Selects(init, i, k);
        }
      }
      forall i, k | LastSelects(names, i, k)
        ensures SelectNames(names)[k] == Id(Trim(names[i]))
      {
        if i < n {
          assert init[i] == names[i];
          assert !Selects(names, n, k);
          forall j | i < j < n
            ensures !Selects(init, j, k)
          {
            assert init[j] == names[j];
            assert !Selects(names, j, k);
          }
          assert LastSelects(init, i, k);
        }
      }
      forall k | k in SelectNames(names)
        ensures exists i :: Selects(names, i, k)
      {
        if k in m {
          var i :| Selects(init, i, k);
          assert init[i] == names[i];
          assert Selects(names, i, k);
        } else {
          assert Selects(names, n, k);
        }
      }
    }
  }

  /** `select('a.b, c')` is `{b: 'a.b', c: 'c'}`. */
  lemma SelectExample()
    ensures Selected(Names("a.b, c")) == map["b" := Id("a.b"), "c" := Id("c")]
  {
    ExampleSplit();
    ExamplePieces();
    var names := ["a.b", " c"];
    assert names[..1] == ["a.b"] && ["a.b"][..0] == [];
    assert SelectNames(["a.b"]) == map["b" := Id("a.b")];
    assert SelectNames(names) == Pick(map["b" := Id("a.b")], " c");
  }

  lemma ExampleSplit()
    ensures Split("a.b, c", ',') == ["a.b", " c"]
  {
    assert "a.b, c" == "a.b" + [','] + " c";
    SplitNoSeparator(" c", ',');
    SplitAfterPiece("a.b", " c", ',');
  }

  lemma ExamplePieces()
    ensures Trim("a.b") == "a.b" && LastPiece("a.b", '.') == "b"
    ensures Trim(" c") == "c" && LastPiece("c", '.') == "c"
  {
    assert Trim(" c") == "c";
    assert Trim("a.b") == "a.b";
    assert "a.b" == "a" + ['.'] + "b";
    SplitNoSeparator("b", '.');
    SplitAfterPiece("a", "b", '.');
    SplitNoSeparator("c", '.');
  }
}
