/**
 * The game session engine (`GameState`): it walks the knowledge tree one
 * answer at a time, remembers the path it took and, when its guess was
 * wrong, grows the tree by one question at the end of that path.
 */
module Session {
  import opened Text
  import opened DecisionTree

  /** `"yes"` selects the yes branch; any other answer is taken as no. */
  function BranchOf(ans: string): Branch
  {
    if ans == "yes" then Yes else No
  }

  /** The node one `answer` call moves to: a guess stays where it is, a
      question moves to the chosen child. */
  function Step(n: Node, ans: string): Node
  {
    if IsLeaf(n) then n else Child(n, BranchOf(ans))
  }

  /** The node reached by answering `answers` in turn, starting at `n`. */
  function Walk(n: Node, answers: seq<string>): Node
    decreases |answers|
  {
    if answers == [] then n else Walk(Step(n, answers[0]), answers[1..])
  }

  /** Once the walk reaches a guess, further answers leave it there. */
  lemma {:induction false} WalkFromGuess(n: Node, answers: seq<string>)
    requires IsLeaf(n)
    ensures Walk(n, answers) == n
    decreases |answers|
  {
    if answers != [] {
      WalkFromGuess(n, answers[1..]);
    }
  }

  lemma {:induction false} WalkAppend(n: Node, a: seq<string>, b: seq<string>)
    ensures Walk(n, a + b) == Walk(Walk(n, a), b)
    decreases |a|
  {
    if a == [] {
      assert a + b == b;
    } else {
      assert (a + b)[0] == a[0];
      assert (a + b)[1..] == a[1..] + b;
      WalkAppend(Step(n, a[0]), a[1..], b);
    }
  }

  /** Three yes answers on the seed tree guess the Radiance. */
  lemma DefaultWalkRadiancia()
    ensures Walk(DefaultTree(), ["yes", "yes", "yes"]) == Guess("Radiancia")
  {
  }

  /** Eight no answers on the seed tree guess the Knight, and the session
      stays there whatever is answered next. */
  lemma DefaultWalkCaballero(extra: seq<string>)
    ensures Walk(DefaultTree(), seq(8, _ => "no") + extra) == Guess("El Caballero")
  {
    var nos := seq(8, _ => "no");
    var d := DefaultTree();
    assert Walk(d, nos) == Walk(d.no, nos[1..]);
    assert Walk(d.no, nos[1..]) == Walk(d.no.no, nos[2..]) by { assert nos[1..][1..] == nos[2..]; }
    assert Walk(d.no.no, nos[2..]) == Walk(d.no.no.no, nos[3..]) by { assert nos[2..][1..] == nos[3..]; }
    assert Walk(d.no.no.no, nos[3..]) == Walk(d.no.no.no.no, nos[4..]) by { assert nos[3..][1..] == nos[4..]; }
    var m := d.no.no.no.no;
    assert Walk(m, nos[4..]) == Walk(m.no, nos[5..]) by { assert nos[4..][1..] == nos[5..]; }
    assert Walk(m.no, nos[5..]) == Walk(m.no.no, nos[6..]) by { assert nos[5..][1..] == nos[6..]; }
    assert Walk(m.no.no, nos[6..]) == Walk(m.no.no.no, nos[7..]) by { assert nos[6..][1..] == nos[7..]; }
    assert Walk(m.no.no.no, nos[7..]) == Walk(m.no.no.no.no, nos[8..]) by { assert nos[7..][1..] == nos[8..]; }
    assert m.no.no.no.no == Guess("El Caballero");
    WalkAppend(DefaultTree(), nos, extra);
    WalkFromGuess(Guess("El Caballero"), extra);
  }

  /** The `(node, branch)` pairs of a walk along `p`: each visited question
      with the branch taken from it. */
  function TrailFrom(n: Node, p: seq<Branch>): (r: seq<(Node, Branch)>)
    requires ValidPath(n, p)
    ensures |r| == |p|
    ensures forall i :: 0 <= i < |p| ==> r[i].1 == p[i] && r[i].0.Question?
    decreases p
  {
    if p == [] then [] else [(n, p[0])] + TrailFrom(Child(n, p[0]), p[1..])
  }

  /** Extending the walk by one step adds one pair for the node left. */
  lemma {:induction false} TrailSnoc(n: Node, p: seq<Branch>, b: Branch)
    requires ValidPath(n, p) && At(n, p).Question?
    ensures ValidPath(n, p + [b])
    ensures TrailFrom(n, p + [b]) == TrailFrom(n, p) + [(At(n, p), b)]
    decreases p
  {
    AtSnoc(n, p, b);
    if p == [] {
      assert p + [b] == [b];
      assert [b][1..] == [];
    } else {
      assert (p + [b])[0] == p[0];
      assert (p + [b])[1..] == p[1..] + [b];
      TrailSnoc(Child(n, p[0]), p[1..], b);
    }
  }

  const GuessPrefix := "¿Tu personaje es **"
  const GuessSuffix := "**?"

  /** The confirmation prompt shown for a guess. */
  function GuessPrompt(name: string): (r: string)
    ensures |r| == |GuessPrefix| + |name| + |GuessSuffix|
    ensures r[..|GuessPrefix|] == GuessPrefix && r[|r| - |GuessSuffix|..] == GuessSuffix
    ensures r[|GuessPrefix|..|r| - |GuessSuffix|] == name
  {
    GuessPrefix + name + GuessSuffix
  }

  /** Different names give different prompts. */
  lemma GuessPromptInjective(a: string, b: string)
    requires GuessPrompt(a) == GuessPrompt(b)
    ensures a == b
  {
    var r := GuessPrompt(a);
    assert a == r[|GuessPrefix|..|r| - |GuessSuffix|];
  }

  /** The question node `learn` builds: its question is the normalised text,
      one child guesses the true name and the other the old guess. */
  function LearnedNode(trueName: string, oldGuess: string, newQuestion: string, answerYesForNew: bool): (r: Node)
    ensures r.Question? && r.q == NormalizeQuestion(newQuestion) && AllQuestionsMarked(r)
    ensures Child(r, if answerYesForNew then Yes else No) == Guess(trueName)
    ensures Child(r, if answerYesForNew then No else Yes) == Guess(oldGuess)
  {
    Question(
      NormalizeQuestion(newQuestion),
      if answerYesForNew then Guess(trueName) else Guess(oldGuess),
      if answerYesForNew then Guess(oldGuess) else Guess(trueName))
  }

  /** The tree after `learn` with the session at the end of `p`: when that
      node is a guess it is replaced by the learned question, otherwise
      nothing changes. */
  function Learned(t: Node, p: seq<Branch>, trueName: string, newQuestion: string, answerYesForNew: bool): Node
    requires ValidPath(t, p)
  {
    var leaf := At(t, p);
    if IsLeaf(leaf) then ReplaceAt(t, p, LearnedNode(trueName, leaf.name, newQuestion, answerYesForNew)) else t
  }

  /** Learning puts the new question exactly where the wrong guess was; with
      an empty path the new question is the whole tree. */
  lemma LearnReplacesGuess(t: Node, p: seq<Branch>, trueName: string, newQuestion: string, yes: bool)
    requires ValidPath(t, p) && IsLeaf(At(t, p))
    ensures ValidPath(Learned(t, p, trueName, newQuestion, yes), p)
    ensures At(Learned(t, p, trueName, newQuestion, yes), p) == LearnedNode(trueName, At(t, p).name, newQuestion, yes)
    ensures p == [] ==> Learned(t, p, trueName, newQuestion, yes) == LearnedNode(trueName, t.name, newQuestion, yes)
  {
  }

  /** Everything off the learning path is untouched. */
  lemma LearnKeepsOffPath(t: Node, p: seq<Branch>, trueName: string, newQuestion: string, yes: bool, q: seq<Branch>)
    requires ValidPath(t, p) && ValidPath(t, q) && !IsPrefix(p, q) && !IsPrefix(q, p)
    ensures ValidPath(Learned(t, p, trueName, newQuestion, yes), q)
    ensures At(Learned(t, p, trueName, newQuestion, yes), q) == At(t, q)
  {
    if IsLeaf(At(t, p)) {
      ReplaceAtOffPath(t, p, LearnedNode(trueName, At(t, p).name, newQuestion, yes), q);
    }
  }

  /** The questions on the way to the learning point keep their text. */
  lemma LearnKeepsAncestors(t: Node, p: seq<Branch>, trueName: string, newQuestion: string, yes: bool, q: seq<Branch>)
    requires ValidPath(t, p) && IsPrefix(q, p) && |q| < |p|
    ensures ValidPath(t, q) && At(t, q).Question?
    ensures ValidPath(Learned(t, p, trueName, newQuestion, yes), q)
    ensures At(Learned(t, p, trueName, newQuestion, yes), q).Question?
    ensures At(Learned(t, p, trueName, newQuestion, yes), q).q == At(t, q).q
  {
    if IsLeaf(At(t, p)) {
      ReplaceAtAncestor(t, p, LearnedNode(trueName, At(t, p).name, newQuestion, yes), q);
    } else {
      ReplaceAtAncestor(t, p, At(t, p), q);
    }
  }

  /** Learning adds exactly the true name to the guesses (the old guess
      survives as the sibling). */
  lemma LearnAddsTrueName(t: Node, p: seq<Branch>, trueName: string, newQuestion: string, yes: bool)
    requires ValidPath(t, p) && IsLeaf(At(t, p))
    ensures Guesses(Learned(t, p, trueName, newQuestion, yes)) == Guesses(t) + multiset{trueName}
  {
    var r := LearnedNode(trueName, At(t, p).name, newQuestion, yes);
    LeafPairGuesses(NormalizeQuestion(newQuestion), trueName, At(t, p).name, yes);
    ReplaceLeafGuesses(t, p, r, trueName);
  }

  /** Learning adds exactly one question. */
  lemma LearnAddsQuestion(t: Node, p: seq<Branch>, trueName: string, newQuestion: string, yes: bool)
    requires ValidPath(t, p) && IsLeaf(At(t, p))
    ensures QuestionCount(Learned(t, p, trueName, newQuestion, yes)) == QuestionCount(t) + 1
  {
    ReplaceAtQuestionCount(t, p, LearnedNode(trueName, At(t, p).name, newQuestion, yes));
  }

  /** Learning keeps every question of the tree ending with `?`. */
  lemma LearnKeepsQuestionsMarked(t: Node, p: seq<Branch>, trueName: string, newQuestion: string, yes: bool)
    requires ValidPath(t, p) && AllQuestionsMarked(t)
    ensures AllQuestionsMarked(Learned(t, p, trueName, newQuestion, yes))
  {
    if IsLeaf(At(t, p)) {
      ReplaceAtQuestionsMarked(t, p, LearnedNode(trueName, At(t, p).name, newQuestion, yes));
    }
  }

  /** `GameState`: the tree being played, the branches taken so far, and the
      node the session is at, which is always the end of that path. */
  class GameState {
    var tree: Node
    var path: seq<Branch>
    var node: Node

    ghost predicate Valid()
      reads this
    {
      ValidPath(tree, path) && node == At(tree, path)
    }

    /** The recorded `(node, branch)` pairs, as the current tree has them. */
    function Trail(): seq<(Node, Branch)>
      reads this
      requires Valid()
    {
      TrailFrom(tree, path)
    }

    constructor (t: Node)
      ensures Valid() && tree == t && path == [] && node == t
    {
      tree := t;
      path := [];
      node := t;
    }

    /** `restart`: back to the root of the same tree. */
    method Restart()
      modifies this
      ensures Valid() && tree == old(tree) && path == [] && node == tree
    {
      path := [];
      node := tree;
    }

    /** `answer`: on a guess nothing happens; on a question one
        `(node, branch)` pair is recorded and the session moves to that
        child. The tree is never changed. */
    method Answer(ans: string)
      requires Valid()
      modifies this
      ensures Valid() && tree == old(tree) && node == Step(old(node), ans)
      ensures IsLeaf(old(node)) ==> path == old(path)
      ensures !IsLeaf(old(node)) ==> path == old(path) + [BranchOf(ans)]
      ensures !IsLeaf(old(node)) ==> Trail() == old(Trail()) + [(old(node), BranchOf(ans))]
    {
      if IsLeaf(node) {
        return;
      }
      var branch := BranchOf(ans);
      AtSnoc(tree, path, branch);
      TrailSnoc(tree, path, branch);
      path := path + [branch];
      node := Child(node, branch);
    }

    /** `current_text`: the question being asked, or the prompt for the guess. */
    function CurrentText(): (r: string)
      reads this
      ensures !IsLeaf(node) ==> r == node.q
      ensures IsLeaf(node) ==> r == GuessPrompt(node.name) && r[|GuessPrefix|..|r| - |GuessSuffix|] == node.name
    {
      if IsLeaf(node) then GuessPrompt(node.name) else node.q
    }

    /** The write at the end of `learn`: the current node becomes `newNode`,
        either as the whole tree (empty path) or by overwriting one child of
        its parent. The path is kept. */
    method ReplaceCurrent(newNode: Node)
      requires Valid()
      modifies this
      ensures Valid() && path == old(path) && node == newNode
      ensures tree == ReplaceAt(old(tree), old(path), newNode)
    {
      if path == [] {
        tree := newNode;
        node := newNode;
      } else {
        var parentPath, side := path[..|path| - 1], path[|path| - 1];
        assert path == parentPath + [side];
        AtSnoc(tree, parentPath, side);
        var parent := At(tree, parentPath);
        ReplaceAtSnoc(tree, parentPath, side, newNode);
        tree := ReplaceAt(tree, parentPath, SetChild(parent, side, newNode));
        node := newNode;
      }
    }

    /** `learn`: at a wrong guess, the guess is replaced in the tree by a
        question telling the true name from the old guess; the session
        moves to that question. Elsewhere it does nothing. */
    method Learn(trueName: string, newQuestion: string, answerYesForNew: bool)
      requires Valid()
      modifies this
      ensures Valid() && path == old(path)
      ensures tree == Learned(old(tree), old(path), trueName, newQuestion, answerYesForNew)
      ensures IsLeaf(old(node)) ==> node == LearnedNode(trueName, old(node).name, newQuestion, answerYesForNew)
      ensures !IsLeaf(old(node)) ==> tree == old(tree) && node == old(node)
    {
      if !IsLeaf(node) {
        return;
      }
      var oldGuess := node.name;
      var newNode := LearnedNode(trueName, oldGuess, newQuestion, answerYesForNew);
      ReplaceCurrent(newNode);
    }
  }
}
