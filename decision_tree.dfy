/**
 * The knowledge base: a binary decision tree whose inner nodes ask a yes/no
 * question and whose leaves guess a character, together with the
 * path-addressed operations the game engine uses to walk and rewrite it.
 */
module DecisionTree {
  import opened Text

  /** The answer recorded for one step of a walk (the keys `"yes"` and `"no"`). */
  datatype Branch = Yes | No

  /** A node is a guess leaf (`{"guess": name}`) or a question with both
      children present (`{"q": text, "yes": node, "no": node}`). */
  datatype Node = Guess(name: string) | Question(q: string, yes: Node, no: Node)

  /** `is_leaf`: the node is a guess. */
  predicate IsLeaf(n: Node)
  {
    n.Guess?
  }

  function Other(b: Branch): Branch
  {
    if b == Yes then No else Yes
  }

  /** `node[branch]` on a question node. */
  function Child(n: Node, b: Branch): Node
    requires n.Question?
  {
    if b == Yes then n.yes else n.no
  }

  /** `node[branch] = c`: the question keeps its text and its other child. */
  function SetChild(n: Node, b: Branch, c: Node): (r: Node)
    requires n.Question?
    ensures r.Question? && r.q == n.q
    ensures Child(r, b) == c && Child(r, Other(b)) == Child(n, Other(b))
  {
    if b == Yes then n.(yes := c) else n.(no := c)
  }

  /** Every step of `p` leaves a question node through one of its branches. */
  predicate ValidPath(n: Node, p: seq<Branch>)
    decreases p
  {
    p == [] || (n.Question? && ValidPath(Child(n, p[0]), p[1..]))
  }

  /** The node reached from `n` by following `p`. */
  function At(n: Node, p: seq<Branch>): Node
    requires ValidPath(n, p)
    decreases p
  {
    if p == [] then n else At(Child(n, p[0]), p[1..])
  }

  /** `n` with the node at the end of `p` replaced by `r`; the path-copying
      counterpart of assigning into the parent of that node. */
  function ReplaceAt(n: Node, p: seq<Branch>, r: Node): (t: Node)
    requires ValidPath(n, p)
    ensures ValidPath(t, p) && At(t, p) == r
    decreases p
  {
    if p == [] then r else SetChild(n, p[0], ReplaceAt(Child(n, p[0]), p[1..], r))
  }

  predicate IsPrefix(q: seq<Branch>, p: seq<Branch>)
  {
    |q| <= |p| && p[..|q|] == q
  }

  /** The names guessed by the leaves, with repetitions (duplicates are allowed). */
  function Guesses(n: Node): multiset<string>
  {
    match n
    case Guess(name) => multiset{name}
    case Question(_, y, o) => Guesses(y) + Guesses(o)
  }

  function QuestionCount(n: Node): nat
  {
    match n
    case Guess(_) => 0
    case Question(_, y, o) => 1 + QuestionCount(y) + QuestionCount(o)
  }

  /** The text ends with a question mark. */
  predicate EndsWithMark(s: string)
  {
    |s| > 0 && s[|s| - 1] == '?'
  }

  /** Every question of the tree reads as a question: its text ends with `?`. */
  predicate AllQuestionsMarked(n: Node)
  {
    match n
    case Guess(_) => true
    case Question(q, y, o) => EndsWithMark(q) && AllQuestionsMarked(y) && AllQuestionsMarked(o)
  }

  /** `normalize_question`: strip the text and make sure it ends with `?`. */
  function NormalizeQuestion(q: string): (r: string)
    ensures EndsWithMark(r)
  {
    var t := Strip(q);
    if EndsWithMark(t) then t else t + "?"
  }

  /** The normalised question is the stripped text, with `?` added when
      it did not already end with one. */
  lemma NormalizeQuestionExtends(q: string)
    ensures var r, t := NormalizeQuestion(q), Strip(q);
      && |t| <= |r| <= |t| + 1 && r[..|t|] == t
      && (|r| == |t| <==> EndsWithMark(t))
  {
    var t := Strip(q);
    if !EndsWithMark(t) {
      assert (t + "?")[..|t|] == t;
    }
  }

  /** A normalised question has no whitespace at either end. */
  lemma NormalizeQuestionTrimmed(q: string)
    ensures Trimmed(NormalizeQuestion(q))
  {
    var t, r := Strip(q), NormalizeQuestion(q);
    if r != t {
      assert t != [] ==> r[0] == t[0];
    }
  }

  /** Normalising an already normalised question changes nothing. */
  lemma NormalizeQuestionIdempotent(q: string)
    ensures NormalizeQuestion(NormalizeQuestion(q)) == NormalizeQuestion(q)
  {
    NormalizeQuestionTrimmed(q);
    StripTrimmed(NormalizeQuestion(q));
  }

  lemma NormalizeQuestionAddsMark()
    ensures NormalizeQuestion("abc") == "abc?"
  {
    StripTrimmed("abc");
  }

  /** Whitespace around the typed question never matters. */
  lemma NormalizeQuestionPadded(a: string, q: string, b: string)
    requires AllSpace(a) && AllSpace(b)
    ensures NormalizeQuestion(a + q + b) == NormalizeQuestion(q)
  {
    StripIgnoresPadding(a, q, b);
  }

  /** A trimmed text that already ends with `?` is left as it is. */
  lemma NormalizeQuestionKeeps(q: string)
    requires Trimmed(q) && EndsWithMark(q)
    ensures NormalizeQuestion(q) == q
  {
    StripTrimmed(q);
  }

  lemma NormalizeQuestionBlank()
    ensures NormalizeQuestion("  ") == "?"
  {
    assert "  " == "  " + [] + [];
    StripIgnoresPadding("  ", [], []);
  }

  /** One more step: a path extends exactly when it ends on a question,
      and the extended path reaches that question's child. */
  lemma {:induction false} AtSnoc(n: Node, p: seq<Branch>, b: Branch)
    ensures ValidPath(n, p + [b]) <==> ValidPath(n, p) && At(n, p).Question?
    ensures ValidPath(n, p + [b]) ==> At(n, p + [b]) == Child(At(n, p), b)
    decreases p
  {
    if p == [] {
      assert p + [b] == [b];
      assert [b][1..] == [];
    } else {
      assert (p + [b])[0] == p[0];
      assert (p + [b])[1..] == p[1..] + [b];
      if n.Question? {
        AtSnoc(Child(n, p[0]), p[1..], b);
      }
    }
  }

  /** Replacing a node equals overwriting one child of its parent and
      replacing the parent: the shape of `parent[side] = new_node`. */
  lemma {:induction false} ReplaceAtSnoc(n: Node, p: seq<Branch>, b: Branch, r: Node)
    requires ValidPath(n, p) && At(n, p).Question?
    ensures ValidPath(n, p + [b])
    ensures ReplaceAt(n, p + [b], r) == ReplaceAt(n, p, SetChild(At(n, p), b, r))
    decreases p
  {
    AtSnoc(n, p, b);
    if p == [] {
      assert p + [b] == [b];
      assert [b][1..] == [];
    } else {
      assert (p + [b])[0] == p[0];
      assert (p + [b])[1..] == p[1..] + [b];
      ReplaceAtSnoc(Child(n, p[0]), p[1..], b, r);
    }
  }

  /** Nodes off the rewritten path keep their place and their content. */
  lemma {:induction false} ReplaceAtOffPath(n: Node, p: seq<Branch>, r: Node, q: seq<Branch>)
    requires ValidPath(n, p) && ValidPath(n, q)
    requires !IsPrefix(p, q) && !IsPrefix(q, p)
    ensures ValidPath(ReplaceAt(n, p, r), q) && At(ReplaceAt(n, p, r), q) == At(n, q)
    decreases p
  {
    assert p != [] && q != [];
    var t := ReplaceAt(n, p, r);
    if p[0] != q[0] {
      assert q[0] == Other(p[0]);
      assert Child(t, q[0]) == Child(n, q[0]);
    } else {
      PrefixCons(p, q);
      PrefixCons(q, p);
      ReplaceAtOffPath(Child(n, p[0]), p[1..], r, q[1..]);
    }
  }

  lemma PrefixCons(x: seq<Branch>, y: seq<Branch>)
    requires x != [] && y != [] && x[0] == y[0]
    ensures IsPrefix(x[1..], y[1..]) ==> IsPrefix(x, y)
  {
    if IsPrefix(x[1..], y[1..]) {
      assert y[..|x|] == [y[0]] + y[1..][..|x| - 1];
      assert x == [x[0]] + x[1..];
    }
  }

  /** The questions above the rewritten node keep their text. */
  lemma {:induction false} ReplaceAtAncestor(n: Node, p: seq<Branch>, r: Node, q: seq<Branch>)
    requires ValidPath(n, p) && IsPrefix(q, p) && |q| < |p|
    ensures ValidPath(n, q) && At(n, q).Question?
    ensures ValidPath(ReplaceAt(n, p, r), q)
    ensures At(ReplaceAt(n, p, r), q).Question? && At(ReplaceAt(n, p, r), q).q == At(n, q).q
    decreases p
  {
    if q != [] {
      assert q[1..] == p[1..][..|q| - 1];
      ReplaceAtAncestor(Child(n, p[0]), p[1..], r, q[1..]);
    }
  }

  /** The guesses of the rewritten tree, name by name: those of the old
      tree, minus the replaced subtree's, plus the replacement's. */
  lemma {:induction false} ReplaceAtGuesses(n: Node, p: seq<Branch>, r: Node, x: string)
    requires ValidPath(n, p)
    ensures Guesses(ReplaceAt(n, p, r))[x] + Guesses(At(n, p))[x] == Guesses(n)[x] + Guesses(r)[x]
    decreases p
  {
    if p != [] {
      var c := Child(n, p[0]);
      ReplaceAtGuesses(c, p[1..], r, x);
      var t := ReplaceAt(n, p, r);
      var rc := ReplaceAt(c, p[1..], r);
      assert At(n, p) == At(c, p[1..]);
      if p[0] == Yes {
        assert t == Question(n.q, rc, n.no);
      } else {
        assert t == Question(n.q, n.yes, rc);
      }
    }
  }

  /** A question over two leaves guesses exactly their two names. */
  lemma LeafPairGuesses(q: string, a: string, b: string, aOnYes: bool)
    ensures var r := Question(q, if aOnYes then Guess(a) else Guess(b), if aOnYes then Guess(b) else Guess(a));
      Guesses(r) == Guesses(Guess(b)) + multiset{a}
  {
  }

  /** Replacing a leaf by a subtree holding that leaf's guess and one more
      name adds exactly that name to the guesses. */
  lemma ReplaceLeafGuesses(n: Node, p: seq<Branch>, r: Node, a: string)
    requires ValidPath(n, p) && IsLeaf(At(n, p))
    requires Guesses(r) == Guesses(At(n, p)) + multiset{a}
    ensures Guesses(ReplaceAt(n, p, r)) == Guesses(n) + multiset{a}
  {
    forall x ensures Guesses(ReplaceAt(n, p, r))[x] == (Guesses(n) + multiset{a})[x] {
      ReplaceAtGuesses(n, p, r, x);
    }
  }

  lemma {:induction false} ReplaceAtQuestionCount(n: Node, p: seq<Branch>, r: Node)
    requires ValidPath(n, p)
    ensures QuestionCount(ReplaceAt(n, p, r)) + QuestionCount(At(n, p)) == QuestionCount(n) + QuestionCount(r)
    decreases p
  {
    if p != [] {
      var c, o := Child(n, p[0]), Child(n, Other(p[0]));
      ReplaceAtQuestionCount(c, p[1..], r);
      var t := ReplaceAt(n, p, r);
      assert Child(t, Other(p[0])) == o;
      if p[0] == Yes {
        assert t == Question(n.q, ReplaceAt(c, p[1..], r), o);
      } else {
        assert t == Question(n.q, o, ReplaceAt(c, p[1..], r));
      }
    }
  }

  /** Grafting a subtree whose questions all end with `?` into a tree whose
      questions all do keeps every question of the result ending with `?`. */
  lemma {:induction false} ReplaceAtQuestionsMarked(n: Node, p: seq<Branch>, r: Node)
    requires ValidPath(n, p) && AllQuestionsMarked(n) && AllQuestionsMarked(r)
    ensures AllQuestionsMarked(ReplaceAt(n, p, r))
    decreases p
  {
    if p != [] {
      ReplaceAtQuestionsMarked(Child(n, p[0]), p[1..], r);
    }
  }

  // The questions of the seed tree.
  const QBoss := "¿Es un jefe o te enfrentas a él/ella en combate principal?"
  const QDivine := "¿Es una entidad divina o regente del Reino?"
  const QLightAndDreams := "¿Está asociada directamente a la luz y los sueños?"
  const QPlural := "¿Se presenta en plural o en equipo durante el combate?"
  const QNeedle := "¿Usa una aguja e hilo en combate?"
  const QTroupe := "¿Lidera una troupe y es teatral?"
  const QVessel := "¿Es un recipiente silencioso sellado?"
  const QCartographer := "¿Es cartógrafo y tararea mientras hace mapas?"
  const QBoastful := "¿Es fanfarrón y presume 57 preceptos?"
  const QNailmaster := "¿Es un artista y maestro del aguijón retirado?"
  const QArmour := "¿Es aventurera con gran armadura?"
  const QExplorer := "¿Es un explorador amable con casco azul?"
  const QRomantic := "¿Es una joven romántica que admira a Zote?"
  const QColosseum := "¿Busca gloria en el coliseo y tiene un destino trágico?"

  /** `default_tree`: the seed knowledge base. */
  function DefaultTree(): Node
  {
    Question(QBoss,
      Question(QDivine,
        Question(QLightAndDreams,
          Guess("Radiancia"),
          Guess("Rey Pálido")),
        Question(QPlural,
          Guess("Señores Mantis"),
          Question(QNeedle,
            Guess("Hornet"),
            Question(QTroupe,
              Guess("Grimm"),
              Question(QVessel,
                Guess("Hollow Knight"),
                Guess("Nosk")))))),
      Question(QCartographer,
        Guess("Cornifer"),
        Question(QBoastful,
          Guess("Zote el Poderoso"),
          Question(QNailmaster,
            Guess("Maestro del Aguijón Sheo"),
            Question(QArmour,
              Guess("Cloth"),
              Question(QExplorer,
                Guess("Quirrel"),
                Question(QRomantic,
                  Guess("Bretta"),
                  Question(QColosseum,
                    Guess("Tiso"),
                    Guess("El Caballero")))))))))
  }

  /** Every question of the seed tree ends with `?`. */
  lemma DefaultTreeQuestionsMarked()
    ensures AllQuestionsMarked(DefaultTree())
  {
  }

  /** The seed tree knows fifteen characters through fourteen questions. */
  lemma DefaultTreeQuestions()
    ensures QuestionCount(DefaultTree()) == 14
  {
    var t := DefaultTree();
    assert QuestionCount(t.yes) == 6;
    assert QuestionCount(t.no) == 7;
  }

  lemma DefaultTreeGuesses()
    ensures |Guesses(DefaultTree())| == 15
  {
    var t := DefaultTree();
    assert |Guesses(t.yes)| == 7;
    assert |Guesses(t.no)| == 8;
  }
}
