/**
 * The application around a game: reading the typed answer, the buttons,
 * the learning dialog, and the menu actions on the knowledge store.
 * Dialog answers are parameters, and the two files are fields holding
 * what was last written to them.
 */
module App {
  import opened Wrappers
  import opened Text
  import opened DecisionTree
  import opened Session
  import opened Statistics
  import opened Knowledge

  const YesWords: set<string> := {"s", "si", "sí", "y", "yes"}
  const NoWords: set<string> := {"n", "no"}

  /** The word lists applied to an answer already stripped and lower-cased. */
  function ReadWord(t: string): (r: Option<string>)
    ensures r.Some? ==> r.value == "yes" || r.value == "no"
    ensures r == Some("yes") <==> t in YesWords
    ensures r == Some("no") <==> t in NoWords
  {
    if t == [] then None
    else if t in YesWords then Some("yes")
    else if t in NoWords then Some("no")
    else None
  }

  /** The typed answer read as "yes" or "no", ignoring surrounding white
      space and letter case; `None` for anything else. */
  function NormalizeInput(s: string): (r: Option<string>)
    ensures r.Some? ==> r.value == "yes" || r.value == "no"
    ensures r == Some("yes") <==> Lower(Strip(s)) in YesWords
    ensures r == Some("no") <==> Lower(Strip(s)) in NoWords
  {
    ReadWord(Lower(Strip(s)))
  }

  /** An answer of white space only is not read. */
  lemma NormalizeInputBlank(s: string)
    requires AllSpace(s)
    ensures NormalizeInput(s) == None
  {
    StripAllSpace(s);
  }

  /** White space around the answer does not change how it is read. */
  lemma NormalizeInputIgnoresPadding(a: string, s: string, b: string)
    requires AllSpace(a) && AllSpace(b)
    ensures NormalizeInput(a + s + b) == NormalizeInput(s)
  {
    StripIgnoresPadding(a, s, b);
  }

  /** Two answers that differ only in letter case are read alike. */
  lemma NormalizeInputIgnoresCase(s: string, s': string)
    requires Lower(s) == Lower(s')
    ensures NormalizeInput(s) == NormalizeInput(s')
  {
    StripLower(s);
    StripLower(s');
  }

  /** "SÍ" in capitals is a yes. */
  lemma NormalizeInputYesExample()
    ensures NormalizeInput("SÍ") == Some("yes")
  {
    var w := "SÍ";
    assert Lower(w) == "sí" by {
      assert Lower(w[1..]) == [LowerChar('Í')];
    }
    StripTrimmed(w);
  }

  /** "No" is a no. */
  lemma NormalizeInputNoExample()
    ensures NormalizeInput("No") == Some("no")
  {
    var w := "No";
    assert Lower(w) == "no" by {
      assert Lower(w[1..]) == [LowerChar('o')];
    }
    StripTrimmed(w);
  }

  /** An answer that only begins like a no-word is not read. */
  lemma NormalizeInputOtherExample()
    ensures NormalizeInput("no sé") == None
  {
    var w := "no sé";
    StripTrimmed(w);
    assert |Lower(Strip(w))| == 5;
  }

  /** The answers to the three learning dialogs: the character's name and
      the new question (`None` when the dialog was dismissed), and whether
      the question is answered yes for the character. */
  datatype LearnReply = LearnReply(trueName: Option<string>, question: Option<string>, answerYes: bool)

  /** The learning dialog gives up on a dismissed or empty name or question;
      the test is made before white space is stripped. */
  predicate Cancelled(reply: LearnReply)
  {
    reply.trueName.None? || reply.trueName.value == [] ||
    reply.question.None? || reply.question.value == []
  }

  /** Everything the application holds, as values: the game in progress,
      the statistics, and the contents of the knowledge and statistics files. */
  datatype Snapshot = Snapshot(tree: Node, path: seq<Branch>, node: Node, stats: Stats,
                               storedTree: Doc, storedStats: Stats)

  /** The game is at the end of its path, and both files hold what is in memory. */
  predicate Consistent(v: Snapshot)
  {
    ValidPath(v.tree, v.path) && v.node == At(v.tree, v.path) &&
    Decode(v.storedTree) == Some(v.tree) && v.storedStats == v.stats
  }

  /** `new_game`: a fresh game over the same tree. */
  function Restarted(v: Snapshot): Snapshot
  {
    v.(path := [], node := v.tree)
  }

  /** The end of `learn_dialog`: learn the character, count the game, save
      both files and start over. */
  function Taught(v: Snapshot, name: string, question: string, yes: bool): Snapshot
    requires ValidPath(v.tree, v.path)
  {
    var t := Learned(v.tree, v.path, name, question, yes);
    var s := Record(v.stats, Learn);
    Snapshot(t, [], t, s, Encode(t), s)
  }

  /** `learn_dialog`: teach the stripped answers, or change nothing when the
      dialog was cancelled. */
  function AfterLearnDialog(v: Snapshot, reply: LearnReply): Snapshot
    requires ValidPath(v.tree, v.path)
  {
    if Cancelled(reply) then v
    else Taught(v, Strip(reply.trueName.value), Strip(reply.question.value), reply.answerYes)
  }

  /** `on_button`: on a question, follow the answer; on a guess, a yes is a
      win that is counted and saved before a new game, anything else opens
      the learning dialog. */
  function AfterButton(v: Snapshot, which: string, reply: LearnReply): Snapshot
    requires ValidPath(v.tree, v.path)
  {
    if !IsLeaf(v.node) then v.(path := v.path + [BranchOf(which)], node := Step(v.node, which))
    else if which == "yes" then
      var s := Record(v.stats, Win);
      Restarted(v.(stats := s, storedStats := s))
    else AfterLearnDialog(v, reply)
  }

  /** `on_enter`: a typed answer that reads as yes or no acts as that button;
      anything else only shows a hint. */
  function AfterEnter(v: Snapshot, text: string, reply: LearnReply): Snapshot
    requires ValidPath(v.tree, v.path)
  {
    match NormalizeInput(text)
    case None => v
    case Some(w) => AfterButton(v, w, reply)
  }

  /** `import_tree`, with the complete-tree check: an accepted tree replaces
      the knowledge, is saved, and a new game starts. */
  function AfterImport(v: Snapshot, d: Doc): Snapshot
  {
    match ValidateImport(d)
    case Failure(_) => v
    case Success(t) => Snapshot(t, [], t, v.stats, d, v.storedStats)
  }

  /** `reset_default`: once confirmed, the seed tree replaces the knowledge,
      is saved, and a new game starts. */
  function AfterReset(v: Snapshot, confirmed: bool): Snapshot
  {
    if confirmed then Snapshot(DefaultTree(), [], DefaultTree(), v.stats, Encode(DefaultTree()), v.storedStats)
    else v
  }

  /** A button press keeps the game on its path and the files in step. */
  lemma ButtonKeepsConsistent(v: Snapshot, which: string, reply: LearnReply)
    requires Consistent(v)
    ensures Consistent(AfterButton(v, which, reply))
  {
    if !IsLeaf(v.node) {
      AtSnoc(v.tree, v.path, BranchOf(which));
    } else if which != "yes" && !Cancelled(reply) {
      DecodeEncode(AfterLearnDialog(v, reply).tree);
    }
  }

  /** So does a typed answer. */
  lemma EnterKeepsConsistent(v: Snapshot, text: string, reply: LearnReply)
    requires Consistent(v)
    ensures Consistent(AfterEnter(v, text, reply))
  {
    if NormalizeInput(text).Some? {
      ButtonKeepsConsistent(v, NormalizeInput(text).value, reply);
    }
  }

  /** A button press counts a game exactly when it ends one: a confirmed
      guess or a completed learning dialog. Balanced counters stay balanced. */
  lemma ButtonCountsGames(v: Snapshot, which: string, reply: LearnReply)
    requires ValidPath(v.tree, v.path)
    ensures var a := AfterButton(v, which, reply);
      !IsLeaf(v.node) ==> a.stats == v.stats
    ensures var a := AfterButton(v, which, reply);
      IsLeaf(v.node) && which == "yes" ==> a.stats == Record(v.stats, Win)
    ensures var a := AfterButton(v, which, reply);
      IsLeaf(v.node) && which != "yes" && !Cancelled(reply) ==> a.stats == Record(v.stats, Learn)
    ensures var a := AfterButton(v, which, reply);
      IsLeaf(v.node) && which != "yes" && Cancelled(reply) ==> a == v
    ensures Balanced(v.stats) ==> Balanced(AfterButton(v, which, reply).stats)
  {
  }

  /** After a wrong guess is learned from, the tree holds the new character
      and one more question, and answering the old path and then the new
      question as the player said leads to the new character. */
  lemma LearnDialogTeaches(v: Snapshot, reply: LearnReply)
    requires Consistent(v) && IsLeaf(v.node) && !Cancelled(reply)
    ensures var a := AfterLearnDialog(v, reply);
      var name := Strip(reply.trueName.value);
      var p := v.path + [if reply.answerYes then Yes else No];
      && Guesses(a.tree) == Guesses(v.tree) + multiset{name}
      && QuestionCount(a.tree) == QuestionCount(v.tree) + 1
      && ValidPath(a.tree, p) && At(a.tree, p) == Guess(name)
      && At(a.tree, v.path).q == NormalizeQuestion(Strip(reply.question.value))
  {
    var name, q := Strip(reply.trueName.value), Strip(reply.question.value);
    var t := Learned(v.tree, v.path, name, q, reply.answerYes);
    LearnAddsTrueName(v.tree, v.path, name, q, reply.answerYes);
    LearnAddsQuestion(v.tree, v.path, name, q, reply.answerYes);
    LearnReplacesGuess(v.tree, v.path, name, q, reply.answerYes);
    AtSnoc(t, v.path, if reply.answerYes then Yes else No);
  }

  /** The name is tested before it is stripped: a name of white space only
      is learned as an empty name. */
  lemma BlankNameIsLearned(v: Snapshot, name: string, q: string, yes: bool)
    requires Consistent(v) && IsLeaf(v.node)
    requires name != [] && AllSpace(name) && q != []
    ensures var a := AfterLearnDialog(v, LearnReply(Some(name), Some(q), yes));
      Guesses(a.tree) == Guesses(v.tree) + multiset{""}
  {
    var reply := LearnReply(Some(name), Some(q), yes);
    LearnDialogTeaches(v, reply);
    StripAllSpace(name);
  }

  /** Importing keeps the files in step, and a document that fails the root
      test leaves everything as it was. */
  lemma ImportKeepsConsistent(v: Snapshot, d: Doc)
    requires Consistent(v)
    ensures Consistent(AfterImport(v, d))
    ensures !IsTreeRoot(d) ==> AfterImport(v, d) == v
  {
  }

  /** A document that holds a tree is always accepted: that tree replaces the
      knowledge, the document is saved and a new game starts. */
  lemma ImportAcceptsEveryTree(v: Snapshot, d: Doc)
    requires Decode(d).Some?
    ensures var a := AfterImport(v, d);
      a.tree == Decode(d).value && a.path == [] && a.node == a.tree && a.storedTree == d
    ensures var a := AfterImport(v, d);
      a.stats == v.stats && a.storedStats == v.storedStats
  {
  }

  /** An exported tree imported again restores the same knowledge. */
  lemma ExportThenImport(v: Snapshot)
    requires Consistent(v)
    ensures AfterImport(v, Encode(v.tree)) == Restarted(v.(storedTree := Encode(v.tree)))
    ensures Consistent(AfterImport(v, Encode(v.tree)))
  {
    ExportImportRoundTrip(v.tree);
  }

  /** A confirmed reset brings back the seed tree and keeps the files in step. */
  lemma ResetKeepsConsistent(v: Snapshot, confirmed: bool)
    requires Consistent(v)
    ensures Consistent(AfterReset(v, confirmed))
    ensures confirmed ==> AfterReset(v, confirmed).tree == DefaultTree()
  {
    DecodeEncode(DefaultTree());
  }

  /** The application: the game in progress, the statistics, and the last
      contents written to the knowledge and statistics files. */
  class Akinator {
    var session: GameState
    var stats: Stats
    var storedTree: Doc
    var storedStats: Stats

    ghost function Snap(): Snapshot
      reads this, session
    {
      Snapshot(session.tree, session.path, session.node, stats, storedTree, storedStats)
    }

    ghost predicate Valid()
      reads this, session
    {
      Consistent(Snap())
    }

    /** Start from the loaded knowledge and the statistics file; without a
        statistics file the counters start at zero and are saved. */
    constructor (loaded: Loaded, statsFile: Option<Stats>)
      requires Decode(loaded.file) == Some(loaded.tree)
      ensures Valid() && fresh(session)
      ensures var s := if statsFile.Some? then statsFile.value else Fresh;
        Snap() == Snapshot(loaded.tree, [], loaded.tree, s, loaded.file, s)
    {
      session := new GameState(loaded.tree);
      var s := if statsFile.Some? then statsFile.value else Fresh;
      stats := s;
      storedTree := loaded.file;
      storedStats := s;
    }

    method NewGame()
      modifies this
      ensures fresh(session)
      ensures Snap() == Restarted(old(Snap()))
    {
      session := new GameState(session.tree);
    }

    method LearnDialog(reply: LearnReply)
      requires Valid()
      modifies this, session
      ensures Valid()
      ensures Snap() == AfterLearnDialog(old(Snap()), reply)
    {
      if reply.trueName.None? || reply.trueName.value == [] {
        return;
      }
      var trueName := reply.trueName.value;
      if reply.question.None? || reply.question.value == [] {
        return;
      }
      var q := reply.question.value;
      Teach(Strip(trueName), Strip(q), reply.answerYes);
    }

    /** The part of `learn_dialog` after the dialogs. */
    method Teach(name: string, question: string, yes: bool)
      requires Valid()
      modifies this, session
      ensures Valid()
      ensures Snap() == Taught(old(Snap()), name, question, yes)
    {
      session.Learn(name, question, yes);
      stats := Record(stats, Learn);
      storedTree := Encode(session.tree);
      storedStats := stats;
      NewGame();
      DecodeEncode(session.tree);
    }

    method OnButton(which: string, reply: LearnReply)
      requires Valid()
      modifies this, session
      ensures Valid()
      ensures Snap() == AfterButton(old(Snap()), which, reply)
    {
      if IsLeaf(session.node) {
        if which == "yes" {
          stats := Record(stats, Win);
          storedStats := stats;
          NewGame();
        } else {
          LearnDialog(reply);
        }
        return;
      }
      ghost var before := Snap();
      session.Answer(which);
      ButtonKeepsConsistent(before, which, reply);
    }

    method OnEnter(text: string, reply: LearnReply)
      requires Valid()
      modifies this, session
      ensures Valid()
      ensures Snap() == AfterEnter(old(Snap()), text, reply)
    {
      var normalized := NormalizeInput(text);
      if normalized.None? {
        return;
      }
      OnButton(normalized.value, reply);
    }

    /** The document written by "export": it imports back to this tree. */
    method ExportTree() returns (d: Doc)
      requires Valid()
      ensures Decode(d) == Some(session.tree)
      ensures ValidateImport(d) == Success(session.tree)
    {
      d := Encode(session.tree);
      ExportImportRoundTrip(session.tree);
    }

    method ImportTree(d: Doc) returns (r: Result<Node, StoreError>)
      requires Valid()
      modifies this, session
      ensures r == ValidateImport(d)
      ensures Valid()
      ensures Snap() == AfterImport(old(Snap()), d)
    {
      r := ValidateImport(d);
      if r.Failure? {
        return;
      }
      session.tree := r.value;
      storedTree := d;
      NewGame();
    }

    method ResetDefault(confirmed: bool)
      requires Valid()
      modifies this, session
      ensures Valid()
      ensures Snap() == AfterReset(old(Snap()), confirmed)
    {
      if !confirmed {
        return;
      }
      var t := DefaultTree();
      storedTree := Encode(t);
      session.tree := t;
      NewGame();
      DecodeEncode(t);
    }
  }
}
