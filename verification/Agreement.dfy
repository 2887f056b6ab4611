/** The tagger and the drift guard agree on what it means for a fence to match a manifest entry. */
module Agreement {
  import opened Outcomes
  import opened Text
  import opened Values
  import opened Fences
  import opened Tagging
  import opened Selection
  import opened Diffing
  import opened Drift

  /** A fence the tagger marks with a name holds a value that the guard does not report against the
      manifest entry of that name, exactly unless the entry contains NaN. */
  lemma ChosenIsInSync(parse: Parser, manifest: Items, text: string, x: Insert)
    requires x in Chosen(parse, manifest, Split(text))
    ensures exists b, entry | b in Blocks(Split(text)) && entry in manifest ::
              && b.open == x.open && entry.0 == x.name && parse(b.lang, b.body).Some?
              && (DiffPaths(entry.1, parse(b.lang, b.body).value, []) == [] <==> !HasNaN(entry.1))
  {
    var lines, targets := Split(text), Targets(manifest);
    ChosenRight(parse, manifest, lines, x);
    var i :| 0 <= i < |Blocks(lines)| && RightBlock(parse, targets, lines, Blocks(lines)[i], x);
    var b := Blocks(lines)[i];
    var v := parse(b.lang, b.body).value;
    var j :| 0 <= j < |targets| && targets[j].0 == x.name && Equal(targets[j].1, v);
    TargetsFrom(manifest);
    assert targets[j] in manifest && b in Blocks(lines);
    DiffEmptyExact(targets[j].1, v, []);
  }

  /** The manifest as the guard reads it. */
  ghost predicate TableOf(manifest: Items, table: map<string, Value>) {
    forall entry | entry in manifest :: entry.0 in table && table[entry.0] == entry.1
  }

  lemma SameOpenSameBlock(lines: seq<string>, b: Block, b': Block)
    requires b in Blocks(lines) && b' in Blocks(lines) && b.open == b'.open
    ensures b == b'
  {
    BlocksExact(lines, Blocks(lines));
    var bs := Blocks(lines);
    var i :| 0 <= i < |bs| && bs[i] == b;
    var j :| 0 <= j < |bs| && bs[j] == b';
    OpensDiffer(lines, bs, i, j);
    OpensDiffer(lines, bs, j, i);
  }

  lemma OpensDiffer(lines: seq<string>, bs: seq<Block>, i: nat, j: nat)
    requires AreBlocks(lines, 0, bs) && i < |bs| && j < |bs|
    ensures i < j ==> bs[i].open < bs[j].open
  {
    assert IsFence(lines, bs[i]);
  }

  /** If the specification holds, under its name, the value of a fence the tagger marks, the guard's report flags that
      block exactly when its manifest entry holds a NaN. */
  lemma ChosenIsNotFlagged(parse: Parser, manifest: Items, table: map<string, Value>, spec: map<string, Value>,
                           text: string, x: Insert, b: Block)
    requires x in Chosen(parse, manifest, Split(text)) && TableOf(manifest, table)
    requires b in Blocks(Split(text)) && b.open == x.open
    requires x.name in spec && parse(b.lang, b.body) == Some(spec[x.name])
    ensures x.name in table && (Flags(Report(table, spec), x.name) <==> HasNaN(table[x.name]))
  {
    ChosenIsInSync(parse, manifest, text, x);
    var b', entry :| b' in Blocks(Split(text)) && entry in manifest
      && b'.open == x.open && entry.0 == x.name && parse(b'.lang, b'.body).Some?
      && (DiffPaths(entry.1, parse(b'.lang, b'.body).value, []) == [] <==> !HasNaN(entry.1));
    SameOpenSameBlock(Split(text), b, b');
    ReportFlags(table, spec, x.name);
    DiffEmptyExact(table[x.name], spec[x.name], []);
  }

  /** The exception is real: a dict with a NaN equals itself under == and is still reported. */
  lemma NaNIsReported()
    ensures var v := Dict(map["x" := Flt(NaN)]);
            Equal(v, v) && DiffPaths(v, v, []) != []
  {
    var v := Dict(map["x" := Flt(NaN)]);
    SameRefl(v);
    assert HasNaN(v.fields["x"]);
    DiffEmptyExact(v, v, []);
  }
}
