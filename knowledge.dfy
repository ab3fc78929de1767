/**
 * The knowledge store: the tree as the JSON document it is saved as, the
 * first-run bootstrap, and the checks an imported document must pass.
 */
module Knowledge {
  import opened Wrappers
  import opened DecisionTree

  /** A parsed JSON value: an object, a string, or anything else. */
  datatype Doc = DMap(entries: map<string, Doc>) | DStr(s: string) | DOther

  datatype StoreError =
    | CorruptData    // the stored document is not a complete tree
    | InvalidFormat  // an imported document is not a complete tree

  /** The document `save_tree` writes for a tree. */
  function Encode(n: Node): (d: Doc)
    ensures d.DMap?
  {
    match n
    case Guess(name) => DMap(map["guess" := DStr(name)])
    case Question(q, y, o) => DMap(map["q" := DStr(q), "yes" := Encode(y), "no" := Encode(o)])
  }

  /** The tree a document describes, if it describes one all the way down.
      As in `is_leaf`, a `guess` key makes a leaf whatever else is there. */
  function Decode(d: Doc): Option<Node>
  {
    match d
    case DMap(m) =>
      if "guess" in m then
        (if m["guess"].DStr? then Some(Guess(m["guess"].s)) else None)
      else if "q" in m && "yes" in m && "no" in m && m["q"].DStr? then
        match (Decode(m["yes"]), Decode(m["no"]))
        case (Some(y), Some(o)) => Some(Question(m["q"].s, y, o))
        case _ => None
      else
        None
    case _ => None
  }

  /** `is_leaf` on the stored form: an object with a `guess` key. */
  predicate IsLeafDoc(d: Doc)
  {
    d.DMap? && "guess" in d.entries
  }

  /** Loading what was saved gives back the same tree. */
  lemma {:induction false} DecodeEncode(n: Node)
    ensures Decode(Encode(n)) == Some(n)
  {
    match n
    case Guess(_) =>
    case Question(q, y, o) =>
      DecodeEncode(y);
      DecodeEncode(o);
  }

  /** The key test `is_leaf` makes on a document agrees with the kind of node
      the document decodes to. */
  lemma IsLeafDocAgrees(d: Doc, n: Node)
    requires Decode(d) == Some(n)
    ensures IsLeafDoc(d) <==> IsLeaf(n)
  {
  }

  /** The root test `import_tree` makes: an object with a `q` or a `guess` key. */
  predicate IsTreeRoot(d: Doc)
  {
    d.DMap? && ("q" in d.entries || "guess" in d.entries)
  }

  /** The root test never turns away a document that holds a tree. */
  lemma DecodedIsTreeRoot(d: Doc)
    requires Decode(d).Some?
    ensures IsTreeRoot(d)
  {
  }

  /** The root test alone lets through a question with no branches, a
      document from which no tree can be read. */
  lemma RootCheckAdmitsIncompleteTree()
    ensures var d := DMap(map["q" := DStr("?")]);
      IsTreeRoot(d) && Decode(d) == None
  {
  }

  /** The import check as intended: the document must pass the root test and
      describe a complete tree. Every document that holds a tree, extra keys
      and all, is accepted as that tree. */
  function ValidateImport(d: Doc): (r: Result<Node, StoreError>)
    ensures r.Success? ==> IsTreeRoot(d) && Decode(d) == Some(r.value)
    ensures Decode(d).Some? ==> r == Success(Decode(d).value)
    ensures !IsTreeRoot(d) ==> r == Failure(InvalidFormat)
    ensures r.Failure? ==> r.error == InvalidFormat
  {
    if !IsTreeRoot(d) then Failure(InvalidFormat)
    else match Decode(d)
      case Some(t) => Success(t)
      case None => Failure(InvalidFormat)
  }

  /** An exported tree imports back unchanged. */
  lemma ExportImportRoundTrip(t: Node)
    ensures ValidateImport(Encode(t)) == Success(t)
  {
    DecodeEncode(t);
    DecodedIsTreeRoot(Encode(t));
  }

  /** A loaded tree together with what the knowledge file holds afterwards. */
  datatype Loaded = Loaded(tree: Node, file: Doc)

  /** `load_tree`: without a knowledge file the seed tree is used and
      saved; otherwise the file is read without being rewritten. */
  function LoadTree(file: Option<Doc>): (r: Result<Loaded, StoreError>)
    ensures file.None? ==> r.Success? && r.value.tree == DefaultTree() && r.value.file == Encode(DefaultTree())
    ensures file.Some? && r.Success? ==> r.value.file == file.value
    ensures file.Some? ==> (r.Success? <==> Decode(file.value).Some?)
    ensures r.Success? ==> Decode(r.value.file) == Some(r.value.tree)
  {
    match file
    case None =>
      DecodeEncode(DefaultTree());
      Success(Loaded(DefaultTree(), Encode(DefaultTree())))
    case Some(d) =>
      match Decode(d)
      case Some(t) => Success(Loaded(t, d))
      case None => Failure(CorruptData)
  }

  /** Saving and loading again gives back the tree that was saved. */
  lemma SaveLoadRoundTrip(t: Node)
    ensures LoadTree(Some(Encode(t))) == Success(Loaded(t, Encode(t)))
  {
    DecodeEncode(t);
  }
}
