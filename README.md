# Hollow Knight Akinator: a verified model of the guessing game

The program is a twenty-questions game about Hollow Knight characters. It
keeps its knowledge as a binary tree of yes/no questions with character
names at the leaves. A game walks the tree from the root, one answer at a
time. When it reaches a leaf it offers that name as its guess. If the guess
is wrong, the player gives the right name and a question that tells the two
characters apart. The game then puts that question where the wrong guess
was, so the tree grows by one question per lesson. The tree is saved as a
JSON document and can be exported, imported or reset to the built-in seed
tree. Three counters are kept: games played, games won and characters
learned.

The model has seven modules:

- `Wrappers`: `Option` and `Result`.
- `Text`: Python's `str.strip` and `str.lower` on `seq<char>`.
- `DecisionTree`: the tree, paths into it, replacement at a path,
  `normalize_question` and the seed tree.
- `Session`: the `GameState` class (`tree`, `path`, `node`) with `restart`,
  `answer`, `current_text` and `learn`, plus the pure lemmas about learning.
- `Statistics`: the counters and the accuracy in the status line.
- `Knowledge`: the tree as the document it is saved as, loading and the
  import check.
- `App`: the application as an `Akinator` class (the game session, the
  counters, and what the two files hold) with `on_enter`, `on_button`,
  `learn_dialog`, `new_game`, `export_tree`, `import_tree` and
  `reset_default`.

Each method of `Akinator` states its new state as a pure function of the old
one: `Snap() == AfterButton(old(Snap()), ...)`. The lemmas about those
functions carry what the application promises. The game stays at the end of
its path, both files hold what is in memory, a game is counted exactly when
it ends, and learning adds exactly one character and one question.

Python's dictionaries are shared by reference. In `learn`,
`parent[side] = new_node` therefore changes the tree in place through the
recorded parent. The model writes this as a path copy: `ReplaceAt` rebuilds
the spine of the tree along the recorded path. The recorded
`(node, branch)` pairs are recomputed from the current tree by
`GameState.Trail`.

Dialog answers, the player's typed text and the files' contents are
parameters or fields. Nothing is read from a screen or a disk.

## Model

| member | source | states |
|---|---|---|
| Text.Strip | hollow_akinator_gui_blur.py:123 | the stripped text has no white space at either end and is no longer than the input |
| Text.StripRemovesOnlySpace | hollow_akinator_gui_blur.py:123 | stripping removes only white space, from the two ends, and keeps the middle as it was |
| Text.StripTrimmed | hollow_akinator_gui_blur.py:123 | text without white space at its ends is left unchanged by stripping |
| Text.StripAllSpace | hollow_akinator_gui_blur.py:298-299 | text made only of white space strips to the empty string |
| Text.StripIgnoresPadding | hollow_akinator_gui_blur.py:298 | white space added around a text does not change what it strips to |
| Text.StripIdempotent | hollow_akinator_gui_blur.py:123 | stripping twice is the same as stripping once |
| Text.Lower | hollow_akinator_gui_blur.py:298 | lower-casing keeps the length and maps each character on its own |
| Text.LowerIdempotent | hollow_akinator_gui_blur.py:298 | lower-casing twice is the same as lower-casing once |
| Text.StripLower | hollow_akinator_gui_blur.py:298 | stripping and lower-casing can be done in either order |
| DecisionTree.IsLeaf | hollow_akinator_gui_blur.py:118-119 | a node is a leaf exactly when it is a guess; on the stored form this is the `guess` key test, as `Knowledge.IsLeafDocAgrees` states |
| DecisionTree.SetChild | hollow_akinator_gui_blur.py:165 | overwriting one side of a question sets that child, keeps the other child and keeps the question text |
| DecisionTree.ReplaceAt | hollow_akinator_gui_blur.py:160-166 | after replacing the node at a path, the path still leads somewhere and leads to the new node |
| DecisionTree.NormalizeQuestion | hollow_akinator_gui_blur.py:122-126 | a normalised question always ends with `?` |
| DecisionTree.NormalizeQuestionExtends | hollow_akinator_gui_blur.py:122-126 | the result is the stripped question, with one `?` appended exactly when it did not already end with one |
| DecisionTree.NormalizeQuestionTrimmed | hollow_akinator_gui_blur.py:122-126 | a normalised question has no white space at either end |
| DecisionTree.NormalizeQuestionIdempotent | hollow_akinator_gui_blur.py:122-126 | normalising a normalised question changes nothing |
| DecisionTree.NormalizeQuestionAddsMark | hollow_akinator_gui_blur.py:124-125 | `abc` becomes `abc?` |
| DecisionTree.NormalizeQuestionPadded | hollow_akinator_gui_blur.py:123 | white space around a question does not change its normal form |
| DecisionTree.NormalizeQuestionKeeps | hollow_akinator_gui_blur.py:122-126 | a trimmed question that already ends with `?` is kept as it is |
| DecisionTree.NormalizeQuestionBlank | hollow_akinator_gui_blur.py:122-126 | a question of spaces only becomes the bare `?` |
| DecisionTree.AtSnoc | hollow_akinator_gui_blur.py:143-144 | a path extended by one branch is valid exactly when it ended at a question, and then it leads to that question's child |
| DecisionTree.ReplaceAtSnoc | hollow_akinator_gui_blur.py:164-165 | replacing the node one step below a parent is the same as overwriting that side of the parent |
| DecisionTree.ReplaceAtOffPath | hollow_akinator_gui_blur.py:165 | a replacement leaves unchanged every node that is neither on the way to the replaced node nor below it |
| DecisionTree.ReplaceAtAncestor | hollow_akinator_gui_blur.py:165 | a replacement keeps every question above it as a question with the same text |
| DecisionTree.ReplaceAtGuesses | hollow_akinator_gui_blur.py:165 | a replacement swaps the guesses below the old node for those below the new one, name by name |
| DecisionTree.LeafPairGuesses | hollow_akinator_gui_blur.py:155-159 | a question over the old guess and a new name holds the old guess and that name, on whichever sides |
| DecisionTree.ReplaceLeafGuesses | hollow_akinator_gui_blur.py:165 | replacing a leaf by a node that holds that leaf's guess plus one name adds exactly that name to the tree |
| DecisionTree.ReplaceAtQuestionCount | hollow_akinator_gui_blur.py:165 | a replacement swaps the old node's questions for the new node's questions |
| DecisionTree.ReplaceAtQuestionsMarked | hollow_akinator_gui_blur.py:165 | putting a node whose questions all end with `?` into such a tree keeps every question ending with `?` |
| DecisionTree.DefaultTree | hollow_akinator_gui_blur.py:30-87 | the seed tree with its fourteen questions and fifteen characters; its properties are the three `DefaultTree` lemmas below and the two seed walks in `Session` |
| DecisionTree.DefaultTreeQuestionsMarked | hollow_akinator_gui_blur.py:30-87 | every question of the seed tree ends with `?` |
| DecisionTree.DefaultTreeQuestions | hollow_akinator_gui_blur.py:30-87 | the seed tree has 14 questions |
| DecisionTree.DefaultTreeGuesses | hollow_akinator_gui_blur.py:30-87 | the seed tree has 15 guesses |
| Session.BranchOf | hollow_akinator_gui_blur.py:142 | the answer `yes` selects the yes branch and every other answer the no branch |
| Session.Step | hollow_akinator_gui_blur.py:140-144 | one answer: a guess stays where it is, a question moves to the chosen child; `GameState.Answer` is stated with it |
| Session.WalkFromGuess | hollow_akinator_gui_blur.py:140-141 | once a game reaches a guess, further answers leave it there |
| Session.WalkAppend | hollow_akinator_gui_blur.py:139-144 | answering two runs of answers in turn reaches the same node as answering them joined |
| Session.DefaultWalkRadiancia | hollow_akinator_gui_blur.py:30-87 | three yes answers on the seed tree guess the Radiance |
| Session.DefaultWalkCaballero | hollow_akinator_gui_blur.py:30-87 | eight no answers on the seed tree guess the Knight, whatever is answered after them |
| Session.TrailFrom | hollow_akinator_gui_blur.py:143 | the recorded pairs are one per branch taken, each a question with the branch taken from it |
| Session.TrailSnoc | hollow_akinator_gui_blur.py:143 | one more answer at a question adds exactly the pair for that question and branch |
| Session.GuessPrompt | hollow_akinator_gui_blur.py:148 | the guess prompt is the fixed opening, the name, and the fixed closing |
| Session.GuessPromptInjective | hollow_akinator_gui_blur.py:148 | different names give different prompts |
| Session.LearnedNode | hollow_akinator_gui_blur.py:154-159 | the new node asks the normalised question, guesses the true name on the side the player chose and the old guess on the other |
| Session.Learned | hollow_akinator_gui_blur.py:151-166 | the tree after `learn`: at a guess, the learned question takes the guess's place; elsewhere the tree is unchanged; its properties are the `Learn` lemmas below, and `GameState.Learn` is stated with it |
| Session.LearnReplacesGuess | hollow_akinator_gui_blur.py:160-166 | learning puts the new question exactly where the wrong guess was, and with an empty path it becomes the whole tree |
| Session.LearnKeepsOffPath | hollow_akinator_gui_blur.py:164-165 | learning changes nothing off the game's path |
| Session.LearnKeepsAncestors | hollow_akinator_gui_blur.py:164-165 | the questions on the way to the wrong guess keep their text |
| Session.LearnAddsTrueName | hollow_akinator_gui_blur.py:154-166 | learning adds exactly the true name to the tree's guesses and loses none |
| Session.LearnAddsQuestion | hollow_akinator_gui_blur.py:155-166 | learning adds exactly one question to the tree |
| Session.LearnKeepsQuestionsMarked | hollow_akinator_gui_blur.py:156 | if every question ended with `?` before learning, every question does after |
| Session.GameState.constructor | hollow_akinator_gui_blur.py:130-133 | a new session stands at the root of the given tree with an empty path |
| Session.GameState.Restart | hollow_akinator_gui_blur.py:135-137 | restart goes back to the root of the same tree and clears the path |
| Session.GameState.Answer | hollow_akinator_gui_blur.py:139-144 | at a guess nothing changes; at a question the session moves to the chosen child and records one pair; the tree is never changed |
| Session.GameState.CurrentText | hollow_akinator_gui_blur.py:146-149 | the text shown is the current question, or the prompt naming the current guess |
| Session.GameState.ReplaceCurrent | hollow_akinator_gui_blur.py:160-166 | the current node is replaced at the end of the same path, as the root or through the parent's side |
| Session.GameState.Learn | hollow_akinator_gui_blur.py:151-166 | at a guess the tree becomes the learned tree and the session stands on the new question; elsewhere nothing changes |
| Statistics.Record | hollow_akinator_gui_blur.py:320-321 | a finished game adds one to the games played, and one to wins or to learned depending on how it ended |
| Statistics.RecordKeepsBalanced | hollow_akinator_gui_blur.py:348-349 | if every game played was won or learned from, that stays so, and wins never exceed games |
| Statistics.TallyCounts | hollow_akinator_gui_blur.py:316-353 | after any run of games the counters are the number of games, wins and lessons in that run |
| Statistics.Accuracy | hollow_akinator_gui_blur.py:377 | the accuracy is 0 before any game and otherwise the percentage of games won, between 0 and 100 |
| Statistics.TallyAccuracy | hollow_akinator_gui_blur.py:373-378 | after N wins and M lessons the accuracy is N / (N + M) * 100, or 0 when no game was played |
| Knowledge.Encode | hollow_akinator_gui_blur.py:99-101 | every saved node is a JSON object |
| Knowledge.Decode | hollow_akinator_gui_blur.py:95-96 | the tree a loaded document describes, when every node down to the leaves is a complete guess or question; `DecodeEncode` makes it the inverse of saving |
| Knowledge.DecodeEncode | hollow_akinator_gui_blur.py:95-101 | reading a saved tree gives back the same tree |
| Knowledge.IsLeafDocAgrees | hollow_akinator_gui_blur.py:118-119 | the `guess` key test agrees with the kind of node a document holds |
| Knowledge.IsTreeRoot | hollow_akinator_gui_blur.py:416 | the import root test as written: an object with a `q` or a `guess` key; `DecodedIsTreeRoot` and `RootCheckAdmitsIncompleteTree` say what it lets through |
| Knowledge.DecodedIsTreeRoot | hollow_akinator_gui_blur.py:416 | the import root test never rejects a document that holds a tree |
| Knowledge.RootCheckAdmitsIncompleteTree | hollow_akinator_gui_blur.py:416-417 | the root test accepts `{"q": "?"}`, from which no tree can be read |
| Knowledge.ValidateImport | hollow_akinator_gui_blur.py:413-420 | a document is accepted exactly when it holds a complete tree, and then as that tree, extra keys and all; any other document, including one that fails the root test, is refused as invalid |
| Knowledge.ExportImportRoundTrip | hollow_akinator_gui_blur.py:401-420 | an exported tree imports back unchanged |
| Knowledge.LoadTree | hollow_akinator_gui_blur.py:90-96 | with no knowledge file the seed tree is used and saved; otherwise loading succeeds exactly when the file holds a tree, and the file is not rewritten |
| Knowledge.SaveLoadRoundTrip | hollow_akinator_gui_blur.py:90-101 | loading a saved tree gives back that tree and leaves the file as it was |
| App.ReadWord | hollow_akinator_gui_blur.py:301-305 | a yes-word reads as yes, a no-word as no, and nothing else is read |
| App.NormalizeInput | hollow_akinator_gui_blur.py:297-305 | an answer reads as yes or no exactly when, stripped and lower-cased, it is one of the yes or no words |
| App.NormalizeInputBlank | hollow_akinator_gui_blur.py:298-300 | an answer of white space only is not read |
| App.NormalizeInputIgnoresPadding | hollow_akinator_gui_blur.py:298 | white space around an answer does not change how it is read |
| App.NormalizeInputIgnoresCase | hollow_akinator_gui_blur.py:298 | answers that differ only in letter case are read alike |
| App.NormalizeInputYesExample | hollow_akinator_gui_blur.py:297-305 | `SÍ` reads as yes |
| App.NormalizeInputNoExample | hollow_akinator_gui_blur.py:297-305 | `No` reads as no |
| App.NormalizeInputOtherExample | hollow_akinator_gui_blur.py:297-305 | `no sé` is not read |
| App.ButtonKeepsConsistent | hollow_akinator_gui_blur.py:316-332 | after a button press the game is still at the end of its path and both files hold what is in memory |
| App.EnterKeepsConsistent | hollow_akinator_gui_blur.py:307-314 | after a typed answer the game is still at the end of its path and both files hold what is in memory |
| App.ButtonCountsGames | hollow_akinator_gui_blur.py:316-349 | a game is counted, as a win or as a lesson, exactly when a button press ends it; a cancelled dialog changes nothing; balanced counters stay balanced |
| App.LearnDialogTeaches | hollow_akinator_gui_blur.py:334-353 | a completed dialog adds the stripped name and one question, and the old path plus the player's answer now leads to that name |
| App.BlankNameIsLearned | hollow_akinator_gui_blur.py:336-347 | a name of spaces only passes the empty test and is learned as the empty name |
| App.ImportKeepsConsistent | hollow_akinator_gui_blur.py:408-423 | an import keeps the files in step, and a document that fails the root test changes nothing |
| App.ImportAcceptsEveryTree | hollow_akinator_gui_blur.py:413-420 | a document that holds a tree always replaces the knowledge, is saved, and starts a new game, with the counters unchanged |
| App.ExportThenImport | hollow_akinator_gui_blur.py:394-420 | importing the exported tree keeps the same knowledge and starts a new game |
| App.ResetKeepsConsistent | hollow_akinator_gui_blur.py:425-431 | a confirmed reset brings back the seed tree, and the files stay in step |
| App.Akinator.constructor | hollow_akinator_gui_blur.py:171-179 | the application starts at the root of the loaded tree, with the stored counters or fresh ones |
| App.Akinator.NewGame | hollow_akinator_gui_blur.py:355-356 | a new game is a fresh session over the same tree |
| App.Akinator.LearnDialog | hollow_akinator_gui_blur.py:334-353 | the dialog either gives up on an empty name or question or teaches the stripped answers, and keeps the files in step |
| App.Akinator.Teach | hollow_akinator_gui_blur.py:347-353 | the lesson is learned, counted and saved in both files, and a new game starts |
| App.Akinator.OnButton | hollow_akinator_gui_blur.py:316-332 | a button press follows the answer, counts and saves a win, or opens the learning dialog, keeping the files in step |
| App.Akinator.OnEnter | hollow_akinator_gui_blur.py:307-314 | a typed answer that reads as yes or no acts as that button; any other text changes nothing |
| App.Akinator.ExportTree | hollow_akinator_gui_blur.py:394-406 | the exported document holds the current tree and imports back to it |
| App.Akinator.ImportTree | hollow_akinator_gui_blur.py:408-423 | acceptance is the complete-tree check of `Knowledge.ValidateImport` (see Findings), not the root test at line 416 alone; an accepted document replaces the tree, is saved and starts a new game; a refused one changes nothing |
| App.Akinator.ResetDefault | hollow_akinator_gui_blur.py:425-431 | once confirmed, the seed tree replaces the knowledge, is saved, and a new game starts |

## Left out

- The Tk window is not modelled: the blurred background image, the panel layout, resizing, labels, message boxes and the status text.
- Dialogs and the entry box are parameters. `LearnReply` carries the answers to the learning dialogs, and a flag carries the reset confirmation.
- JSON text and file access are not modelled. A file is a parsed `Doc`, or `None` when it does not exist. Open and write errors, and the exceptions caught in export and import, are left out.
- The file-selection dialogs of export and import are left out. A cancelled dialog changes nothing, the same as a refused import.
- Formatting the accuracy with one decimal is left out. `Accuracy` is exact real arithmetic.
- `show_stats` (lines 380-392) is not modelled beyond `Accuracy`. It shows the same counters and the same accuracy.
- Text.Lower: only ASCII and Latin-1 letters are lower-cased. This covers every yes and no word; Python lower-cases every Unicode letter.
- Knowledge.LoadTree: a stored file that holds no complete tree fails as `CorruptData`. The source loads any JSON value. If the root is not an object, the program stops at start-up: the first question is shown (lines 194, 370) and `.get` at line 149 fails on it. If an object lacks a branch, nothing fails: a game that takes the missing branch reaches `{}` through line 144 and shows `¿...?` for ever (line 149).
- App.Akinator.constructor: a statistics file is assumed to hold the three counters. In the source a missing `learned` is read as 0 (lines 349, 376). A missing `played` stops the first finished game (line 320 or 348). A missing `wins` stops only the first win (line 321), after `played` was already increased at line 320.
- Session.GameState.Learn: the save inside `learn` (line 167) is not a separate step. `learn_dialog` saves the same tree again at line 350, and the model keeps that save.
- Session.GameState.Answer: the `.get(branch, {})` fallback at line 144 is not modelled, and neither is the `"¿...?"` fallback at line 149. Both are unreachable in a complete tree, and every tree the model holds is complete.
- The `self.tree` field set at line 177 is not modelled. It is never read after start-up.
- The `wrong_guess` argument of `learn_dialog` is not modelled. It appears only in the dialog's prompt text.
- Physical sharing of dictionaries, the live `(node, branch)` references after `learn` in particular, is not modelled beyond what replacement along the path gives.

## Findings

| source | as written | input that shows it | evidently intended | confidence | as-written member | corrected member |
|---|---|---|---|---|---|---|
| hollow_akinator_gui_blur.py:416-417 | the import check accepts any object with a `q` or a `guess` key | `{"q": "?"}`, a question with no `yes` or `no` branch, is accepted and saved; the next game moves to `{}` (line 144) and shows `¿...?` for ever (line 149), so no game can end | accept only a document from which a complete tree can be read | not executed | Knowledge.RootCheckAdmitsIncompleteTree | Knowledge.ValidateImport |
