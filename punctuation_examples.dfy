/** Concrete punctuation dictations and what the parser makes of them,
    matching the expectations written next to the parser
    (src-tauri/src/voice_commands/parser.rs tests): several matches of one
    word, a longer phrase that holds a shorter one, an opening and a closing
    symbol, and a newline. Each is derived from the general lemmas about one
    mapping plus facts about the literals that the verifier cannot see by
    itself. */
module VoicePunctuationExamples {
  import opened Wrappers
  import opened Text
  import opened Types
  import opened VoiceParser
  import opened VoiceParserProperties
  import opened VoicePunctuation
  import opened VoiceParserExamples

  // ---------------------------------------------------------------------------
  // Helpers

  /** The punctuation stage of the pipeline: every mapping, in table order. */
  function Punctuated(text: string): string {
    TablesWellFormed();
    ReplaceAll(text, PunctuationCommands)
  }

  /** In General mode with no edit phrase and no app trigger, parsing is the
      punctuation stage followed by the cleanup. */
  lemma ParseAsPunctuation(text: string)
    requires NoPhraseOf(text, EditCommands) && NoTriggerBeforeLast(text)
    ensures ParseSpec(text, General) == ParseResult(CleanSpec(Punctuated(text)), [])
  {
    TablesWellFormed();
    ExtractTableUnchanged(text, ContextualCommands(General));
    ExtractTableUnchanged(text, EditCommands);
    AppCommandNone(text);
  }

  /** A word that is none of the app triggers. */
  predicate Plain(w: string) {
    w != "ouvre" && w != "lance" && w != "mets" && w != "démarre" && w != "demarre"
  }

  lemma PlainNotTrigger(w: string)
    requires Plain(w)
    ensures !IsTrigger(w)
  {
    assert Lower(AppTriggers[0]) == "ouvre" && Lower(AppTriggers[1]) == "lance";
    assert Lower(AppTriggers[2]) == "mets";
    assert Lower(AppTriggers[3]) == "démarre" && Lower(AppTriggers[4]) == "demarre";
  }

  /** No word but the last is an app trigger: the text opens no app. */
  predicate NoTriggerBeforeLast(text: string) {
    forall j :: 0 <= j < |Words(text)| - 1 ==> !IsTrigger(Lower(Words(text)[j]))
  }

  lemma LastWord(w: string)
    requires IsWord(w)
    ensures NoTriggerBeforeLast(w)
  {
    WordsCons(w, []);
    assert w + [] == w;
  }

  /** A plain word in front of a text that opens no app. */
  lemma PlainWordFirst(w: string, rest: string)
    requires IsWord(w) && Plain(Lower(w)) && NoTriggerBeforeLast(rest)
    ensures NoTriggerBeforeLast(w + " " + rest)
  {
    WordsCons(w, " " + rest);
    assert w + (" " + rest) == w + " " + rest;
    WordsAfterWhite(' ', rest);
    assert [' '] + rest == " " + rest;
    PlainNotTrigger(Lower(w));
  }

  /** Three plain words in front of a text that opens no app. */
  lemma PlainThreeFirst(w1: string, w2: string, w3: string, rest: string)
    requires IsWord(w1) && IsWord(w2) && IsWord(w3)
    requires Plain(Lower(w1)) && Plain(Lower(w2)) && Plain(Lower(w3))
    requires NoTriggerBeforeLast(rest)
    ensures NoTriggerBeforeLast(w1 + " " + w2 + " " + w3 + " " + rest)
  {
    PlainWordFirst(w3, rest);
    PlainWordFirst(w2, w3 + " " + rest);
    PlainWordFirst(w1, w2 + " " + (w3 + " " + rest));
    assert w1 + " " + (w2 + " " + (w3 + " " + rest)) == w1 + " " + w2 + " " + w3 + " " + rest;
  }

  /** The table up to entry `k` included is the table up to `k` excluded,
      then entry `k`. */
  lemma ReplaceAllStep(text: string, k: nat)
    requires k < |PunctuationCommands|
    ensures PunctuationWellFormed()
    ensures ReplaceAll(text, PunctuationCommands[..k + 1])
         == ReplacePunctuation(ReplaceAll(text, PunctuationCommands[..k]), PunctuationCommands[k])
  {
    TablesWellFormed();
    assert PunctuationCommands[..k + 1][..k] == PunctuationCommands[..k];
  }

  /** Every punctuation mapping is well formed. */
  predicate PunctuationWellFormed() {
    forall k :: 0 <= k < |PunctuationCommands| ==> WellFormed(PunctuationCommands[k])
  }

  /** Once the words from entry `k` on are all absent, the rest of the table
      changes nothing. */
  lemma {:induction false} ReplaceAllRest(text: string, k: nat, j: nat)
    requires k <= j <= |PunctuationCommands|
    requires PunctuationWellFormed()
    requires forall i :: k <= i < |PunctuationCommands| ==>
               !Contains(Lower(ReplaceAll(text, PunctuationCommands[..k])), Lower(PunctuationCommands[i].command))
    ensures ReplaceAll(text, PunctuationCommands[..j]) == ReplaceAll(text, PunctuationCommands[..k])
    decreases j - k
  {
    if j > k {
      ReplaceAllRest(text, k, j - 1);
      ReplaceAllStep(text, j - 1);
      ReplaceNoMatch(ReplaceAll(text, PunctuationCommands[..k]), PunctuationCommands[j - 1]);
    }
  }

  /** The whole table, once no word from entry `k` on is left. */
  lemma ReplaceAllFrom(text: string, k: nat)
    requires k <= |PunctuationCommands|
    requires PunctuationWellFormed()
    requires forall i :: k <= i < |PunctuationCommands| ==>
               !Contains(Lower(ReplaceAll(text, PunctuationCommands[..k])), Lower(PunctuationCommands[i].command))
    ensures Punctuated(text) == ReplaceAll(text, PunctuationCommands[..k])
  {
    ReplaceAllRest(text, k, |PunctuationCommands|);
    assert PunctuationCommands[..|PunctuationCommands|] == PunctuationCommands;
    assert Punctuated(text) == ReplaceAll(text, PunctuationCommands);
  }

  /** Lower-casing a text cut into three pieces, the command in the middle. */
  lemma LowerPieces(a: string, c: string, b: string)
    ensures Lower(a + c + b) == Lower(a) + Lower(c) + Lower(b)
    ensures OccursAt(Lower(a + c + b), Lower(c), |a|)
  {
    LowerAppend(a + c, b);
    LowerAppend(a, c);
    var lt := Lower(a) + Lower(c) + Lower(b);
    assert lt[|a|..|a| + |c|] == Lower(c);
  }

  /** The command `c` right after `a`, whose character `k` appears neither
      in `a` nor earlier in `c`: its first occurrence is right after `a`. */
  lemma FirstPieces(a: string, c: string, b: string, k: nat)
    requires k < |c|
    requires Lower(c)[k] !in Lower(a) && Lower(c)[k] !in Lower(c)[..k]
    ensures FirstAt(Lower(a + c + b), Lower(c), |a|)
  {
    LowerPieces(a, c, b);
    var lt, lc, pos := Lower(a + c + b), Lower(c), |a|;
    forall j | 0 <= j < pos ensures !OccursAt(lt, lc, j) {
      if j + |lc| <= |lt| {
        assert lt[j..j + |lc|][k] == lt[j + k];
        if j + k < pos {
          assert lt[j + k] == Lower(a)[j + k];
        } else {
          assert lt[j + k] == lc[j + k - pos];
        }
      }
    }
  }

  /** The same character appearing nowhere after either: `a` is followed
      by the only occurrence of `c`. */
  lemma OnlyPieces(a: string, c: string, b: string, k: nat)
    requires k < |c|
    requires Lower(c)[k] !in Lower(a) && Lower(c)[k] !in Lower(c)[..k]
    requires Lower(c)[k] !in Lower(c)[k + 1..] && Lower(c)[k] !in Lower(b)
    ensures OccursAt(Lower(a + c + b), Lower(c), |a|)
    ensures forall j :: 0 <= j <= |a + c + b| && j != |a| ==> !OccursAt(Lower(a + c + b), Lower(c), j)
  {
    FirstPieces(a, c, b, k);
    var lt, lc, pos := Lower(a + c + b), Lower(c), |a|;
    forall j | pos < j <= |lt| ensures !OccursAt(lt, lc, j) {
      if j + |lc| <= |lt| {
        assert lt[j..j + |lc|][k] == lt[j + k];
        if j + k < pos + |c| {
          assert lt[j + k] == lc[k + 1..][j - pos - 1];
        } else {
          assert lt[j + k] == Lower(b)[j + k - pos - |c|];
        }
      }
    }
  }

  /** A non-opening command after `a` and before `b`, first occurring
      there: the rule of `ReplaceFirst` stated on the pieces. */
  lemma ReplaceFirstPieces(a: string, m: PunctuationMapping, b: string, k: nat)
    requires WellFormed(m) && !m.spacing.OpenNoSpace? && k < |m.command|
    requires Lower(m.command)[k] !in Lower(a) && Lower(m.command)[k] !in Lower(m.command)[..k]
    ensures ReplacePunctuation(a + m.command + b, m)
         == TrimEnd(a) + m.replacement
            + (if m.spacing.CloseWithSpace? && DropSpace(b) != [] then " " else "")
            + ReplacePunctuation(DropSpace(b), m)
  {
    var t := a + m.command + b;
    FirstPieces(a, m.command, b, k);
    ReplaceFirst(t, m, |a|);
    assert t[..|a|] == a;
    assert t[|a| + |m.command|..] == b;
  }

  /** A command occurring only after `a` and before `b`: the rules of
      `ReplaceOnly` stated on the pieces. */
  lemma ReplaceOnlyPieces(a: string, m: PunctuationMapping, b: string, k: nat)
    requires WellFormed(m) && k < |m.command|
    requires Lower(m.command)[k] !in Lower(a) && Lower(m.command)[k] !in Lower(m.command)[..k]
    requires Lower(m.command)[k] !in Lower(m.command)[k + 1..] && Lower(m.command)[k] !in Lower(b)
    ensures m.spacing.CloseWithSpace? ==>
              ReplacePunctuation(a + m.command + b, m)
              == TrimEnd(a) + m.replacement + (if DropSpace(b) != [] then " " else "") + DropSpace(b)
    ensures m.spacing.CloseNoSpace? || m.spacing.Newline? ==>
              ReplacePunctuation(a + m.command + b, m) == TrimEnd(a) + m.replacement + DropSpace(b)
    ensures m.spacing.OpenNoSpace? ==>
              ReplacePunctuation(a + m.command + b, m)
              == a + (if a != [] && a[|a| - 1] != ' ' then " " else "") + m.replacement + DropSpace(b)
  {
    var t := a + m.command + b;
    OnlyPieces(a, m.command, b, k);
    ReplaceOnly(t, m, |a|);
    assert t[..|a|] == a;
    assert t[|a| + |m.command|..] == b;
    if a != [] {
      assert t[|a| - 1] == a[|a| - 1];
    }
  }

  /** A phrase whose first character appears in `lt` only at the start,
      and whose character `k` differs from the one at `k` in `lt`, does not
      occur in `lt`. */
  lemma LacksPastStart(lt: string, p: string, k: nat)
    requires k < |p| && lt != [] && p[0] !in lt[1..]
    requires |lt| <= k || lt[k] != p[k]
    ensures !Contains(lt, p)
  {
    forall j | 0 <= j <= |lt| ensures !OccursAt(lt, p, j) {
      if j + |p| <= |lt| {
        assert lt[j..j + |p|][0] == lt[j];
        assert lt[j..j + |p|][k] == lt[j + k];
        if j > 0 {
          assert lt[1..][j - 1] == lt[j];
        }
      }
    }
  }

  /** Every edit phrase starts with "comma": a text whose only 'c' opens it
      and is not followed by "omma" holds no edit phrase. */
  lemma NoEditPastStart(text: string)
    requires |Lower(text)| > 4 && Lower(text)[4] != 'a' && 'c' !in Lower(text)[1..]
    ensures NoPhraseOf(text, EditCommands)
  {
    var lt := Lower(text);
    forall k | 0 <= k < |EditCommands| ensures !Contains(lt, Lower(EditCommands[k].0)) {
      EditPhraseStart(k);
      LacksPastStart(lt, Lower(EditCommands[k].0), 4);
    }
  }

  lemma EditPhraseStart(k: nat)
    requires k < |EditCommands|
    ensures |Lower(EditCommands[k].0)| > 4
    ensures Lower(EditCommands[k].0)[0] == 'c' && Lower(EditCommands[k].0)[4] == 'a'
  {
    assert Lower(EditCommands[k].0)[..5] == Lower(EditCommands[k].0[..5]);
    assert EditCommands[k].0[..5] == "comma";
  }

  // ---------------------------------------------------------------------------
  // "un virgule deux virgule trois"

  /** Every "virgule" becomes a comma glued to the word before it and
      followed by one space. */
  lemma CommasSeparateWords()
    ensures ParseSpec("un virgule deux virgule trois", General) == ParseResult("un, deux, trois", [])
  {
    var t := "un virgule deux virgule trois";
    CommasLower();
    CommasLacks(Lower(t));
    NoEditWithoutC(t);
    CommasNoTrigger();
    ParseAsPunctuation(t);
    CommasReplaced();
    CommasTidy();
    CleanSpecOfTidy("un, deux, trois");
  }

  lemma CommasLower()
    ensures Lower("un virgule deux virgule trois") == "un virgule deux virgule trois"
  {
  }

  lemma CommasLacks(lt: string)
    requires lt == "un virgule deux virgule trois"
    ensures 'c' !in lt && 'p' !in lt && 'f' !in lt && 'm' !in lt && 'à' !in lt
  {
    CommasLack(lt, 'c');
    CommasLack(lt, 'p');
    CommasLack(lt, 'f');
    CommasLack(lt, 'm');
    CommasLack(lt, 'à');
  }

  lemma CommasLack(lt: string, c: char)
    requires lt == "un virgule deux virgule trois"
    requires c in "cpfmà"
    ensures c !in lt
  {
  }

  lemma CommasNoTrigger()
    ensures NoTriggerBeforeLast("un virgule deux virgule trois")
  {
    CommasSplit();
    CommasPlain();
    var s4 := "trois";
    LastWord(s4);
    var s3 := "virgule" + " " + s4;
    PlainWordFirst("virgule", s4);
    var s2 := "deux" + " " + s3;
    PlainWordFirst("deux", s3);
    var s1 := "virgule" + " " + s2;
    PlainWordFirst("virgule", s2);
    PlainWordFirst("un", s1);
  }

  lemma CommasSplit()
    ensures "un" + " " + ("virgule" + " " + ("deux" + " " + ("virgule" + " " + "trois")))
         == "un virgule deux virgule trois"
  {
  }

  lemma CommasPlain()
    ensures IsWord("un") && IsWord("virgule") && IsWord("deux") && IsWord("trois")
    ensures Plain(Lower("un")) && Plain(Lower("virgule")) && Plain(Lower("deux"))
  {
    assert Lower("un") == "un" && Lower("virgule") == "virgule" && Lower("deux") == "deux";
  }

  lemma CommasTidy()
    ensures Tidy("un, deux, trois") && Trimmed("un, deux, trois")
  {
    NoSpaceTidy("un,");
    CommasTailTidy();
    TidySpaced("un,", "deux, trois");
    assert "un, deux, trois" == "un, " + "deux, trois";
  }

  lemma CommasTailTidy()
    ensures Tidy("deux, trois")
  {
    NoSpaceTidy("deux,");
    NoSpaceTidy("trois");
    TidySpaced("deux,", "trois");
    assert "deux, trois" == "deux," + " " + "trois";
  }

  /** Only "virgule" applies, at both of its places. */
  lemma CommasReplaced()
    ensures Punctuated("un virgule deux virgule trois") == "un, deux, trois"
  {
    var t := "un virgule deux virgule trois";
    CommasBeforeComma();
    ReplaceAllStep(t, 10);
    CommasFirst();
    CommasNoPoint();
    ReplaceAllFrom(t, 11);
  }

  lemma CommasBeforeComma()
    ensures ReplaceAll("un virgule deux virgule trois", PunctuationCommands[..10]) == "un virgule deux virgule trois"
  {
    TablesWellFormed();
    CommasNotBefore();
    ReplaceAllUnchanged("un virgule deux virgule trois", PunctuationCommands[..10]);
  }

  lemma CommasNotBefore()
    ensures forall k :: 0 <= k < 10 ==>
              !Contains(Lower("un virgule deux virgule trois"), Lower(PunctuationCommands[k].command))
  {
    var lt := Lower("un virgule deux virgule trois");
    CommasLower();
    CommasLacks(lt);
    NotBeforeVirgule(lt);
  }

  /** A text without 'p', 'f', 'm' and 'à' holds none of the first ten
      punctuation words. */
  lemma NotBeforeVirgule(lt: string)
    requires 'p' !in lt && 'f' !in lt && 'm' !in lt && 'à' !in lt
    ensures forall k :: 0 <= k < 10 ==> !Contains(lt, Lower(PunctuationCommands[k].command))
  {
    NotBeforeVirguleHead(lt);
    NotBeforeVirguleTail(lt);
  }

  lemma NotBeforeVirguleHead(lt: string)
    requires 'p' !in lt && 'f' !in lt && 'm' !in lt
    ensures forall k :: 0 <= k < 5 ==> !Contains(lt, Lower(PunctuationCommands[k].command))
  {
    Lacks(lt, PunctuationCommands[0].command, 0);
    Lacks(lt, PunctuationCommands[1].command, 0);
    Lacks(lt, PunctuationCommands[2].command, 8);
    Lacks(lt, PunctuationCommands[3].command, 7);
    Lacks(lt, PunctuationCommands[4].command, 0);
  }

  lemma NotBeforeVirguleTail(lt: string)
    requires 'p' !in lt && 'f' !in lt && 'm' !in lt && 'à' !in lt
    ensures forall k :: 5 <= k < 10 ==> !Contains(lt, Lower(PunctuationCommands[k].command))
  {
    Lacks(lt, PunctuationCommands[5].command, 13);
    Lacks(lt, PunctuationCommands[6].command, 0);
    Lacks(lt, PunctuationCommands[7].command, 0);
    Lacks(lt, PunctuationCommands[8].command, 5);
    Lacks(lt, PunctuationCommands[9].command, 0);
  }

  lemma CommasNoPoint()
    ensures !Contains(Lower("un, deux, trois"), Lower(PunctuationCommands[11].command))
  {
    var lt := Lower("un, deux, trois");
    assert lt == "un, deux, trois";
    Lacks(lt, PunctuationCommands[11].command, 0);
  }

  /** The mapping of "virgule". */
  lemma Virgule()
    ensures PunctuationCommands[10] == PunctuationMapping("virgule", ",", CloseWithSpace)
    ensures Lower("virgule") == "virgule"
  {
  }

  /** The first "virgule" ends "un"; the rest is the text after it. */
  lemma CommasFirst()
    ensures ReplacePunctuation("un virgule deux virgule trois", PunctuationCommands[10]) == "un, deux, trois"
  {
    var m := PunctuationCommands[10];
    Virgule();
    CommasFirstPieces();
    ReplaceFirstPieces("un ", m, " deux virgule trois", 0);
    CommasFirstRest();
    CommasSecond();
  }

  lemma CommasFirstPieces()
    ensures "un virgule deux virgule trois" == "un " + "virgule" + " deux virgule trois"
    ensures 'v' !in Lower("un ")
  {
    assert Lower("un ") == "un ";
  }

  lemma CommasFirstRest()
    ensures TrimEnd("un ") == "un" && DropSpace(" deux virgule trois") == "deux virgule trois"
    ensures "un" + "," + " " + "deux, trois" == "un, deux, trois"
  {
  }

  /** The second "virgule" ends "deux". */
  lemma CommasSecond()
    ensures ReplacePunctuation("deux virgule trois", PunctuationCommands[10]) == "deux, trois"
  {
    var m := PunctuationCommands[10];
    Virgule();
    CommasSecondPieces();
    ReplaceFirstPieces("deux ", m, " trois", 0);
    CommasSecondRest();
    Lacks("trois", m.command, 0);
    ReplaceNoMatch("trois", m);
  }

  lemma CommasSecondPieces()
    ensures "deux virgule trois" == "deux " + "virgule" + " trois"
    ensures 'v' !in Lower("deux ")
  {
    assert Lower("deux ") == "deux ";
  }

  lemma CommasSecondRest()
    ensures TrimEnd("deux ") == "deux" && DropSpace(" trois") == "trois" && Lower("trois") == "trois"
    ensures "deux" + "," + " " + "trois" == "deux, trois"
  {
  }

  // ---------------------------------------------------------------------------
  // "Comment allez-vous point d'interrogation"

  /** "point d'interrogation" is consumed whole before "point" is looked
      for: the question mark is glued to the text, and no "." appears. */
  lemma QuestionBeforePoint()
    ensures ParseSpec("Comment allez-vous point d'interrogation", General)
         == ParseResult("Comment allez-vous?", [])
  {
    var t := "Comment allez-vous point d'interrogation";
    QuestionLower();
    QuestionNoEdit();
    QuestionNoTrigger();
    ParseAsPunctuation(t);
    QuestionReplaced();
    QuestionTidy();
    CleanSpecOfTidy("Comment allez-vous?");
  }

  lemma QuestionLower()
    ensures Lower("Comment allez-vous point d'interrogation") == "comment allez-vous point d'interrogation"
  {
    QuestionPieces();
    LowerAppend("Comment allez-vous ", "point d'interrogation");
    QuestionLowerPieces();
  }

  lemma QuestionLowerPieces()
    ensures Lower("Comment allez-vous ") + Lower("point d'interrogation")
         == "comment allez-vous point d'interrogation"
  {
    QuestionLowerHead();
    assert Lower("point d'interrogation") == "point d'interrogation";
    assert "comment allez-vous " + "point d'interrogation" == "comment allez-vous point d'interrogation";
  }

  lemma QuestionLowerHead()
    ensures Lower("Comment allez-vous ") == "comment allez-vous "
  {
  }

  lemma QuestionNoEdit()
    ensures NoPhraseOf("Comment allez-vous point d'interrogation", EditCommands)
  {
    var lt := Lower("Comment allez-vous point d'interrogation");
    QuestionLower();
    assert lt[4] == 'e';
    QuestionOneC(lt[1..]);
    NoEditPastStart("Comment allez-vous point d'interrogation");
  }

  lemma QuestionOneC(rest: string)
    requires rest == "omment allez-vous point d'interrogation"
    ensures 'c' !in rest
  {
  }

  lemma QuestionNoTrigger()
    ensures NoTriggerBeforeLast("Comment allez-vous point d'interrogation")
  {
    QuestionSplit();
    QuestionWords();
    QuestionPlain();
    var s3 := "d'interrogation";
    LastWord(s3);
    var s2 := "point" + " " + s3;
    PlainWordFirst("point", s3);
    var s1 := "allez-vous" + " " + s2;
    PlainWordFirst("allez-vous", s2);
    PlainWordFirst("Comment", s1);
  }

  lemma QuestionSplit()
    ensures "Comment" + " " + ("allez-vous" + " " + ("point" + " " + "d'interrogation"))
         == "Comment allez-vous point d'interrogation"
  {
  }

  lemma QuestionWords()
    ensures IsWord("Comment") && IsWord("allez-vous") && IsWord("point") && IsWord("d'interrogation")
  {
  }

  lemma QuestionPlain()
    ensures Plain(Lower("Comment")) && Plain(Lower("allez-vous")) && Plain(Lower("point"))
  {
    assert Lower("Comment") == "comment" && Lower("allez-vous") == "allez-vous" && Lower("point") == "point";
  }

  lemma QuestionTidy()
    ensures Tidy("Comment allez-vous?") && Trimmed("Comment allez-vous?")
  {
    NoSpaceTidy("Comment");
    NoSpaceTidy("allez-vous?");
    TidySpaced("Comment", "allez-vous?");
    assert "Comment allez-vous?" == "Comment " + "allez-vous?";
  }

  /** The first mapping turns the text into "Comment allez-vous?", in
      which no later word is left. */
  lemma QuestionReplaced()
    ensures Punctuated("Comment allez-vous point d'interrogation") == "Comment allez-vous?"
  {
    var t := "Comment allez-vous point d'interrogation";
    TablesWellFormed();
    assert PunctuationCommands[..0] == [];
    ReplaceAllStep(t, 0);
    QuestionMark();
    QuestionAfter();
    ReplaceAllFrom(t, 1);
  }

  /** The mapping of "point d'interrogation". */
  lemma Interrogation()
    ensures PunctuationCommands[0] == PunctuationMapping("point d'interrogation", "?", CloseWithSpace)
    ensures Lower("point d'interrogation") == "point d'interrogation"
  {
  }

  lemma QuestionMark()
    ensures ReplacePunctuation("Comment allez-vous point d'interrogation", PunctuationCommands[0])
         == "Comment allez-vous?"
  {
    var m := PunctuationCommands[0];
    Interrogation();
    QuestionPieces();
    QuestionOneP();
    ReplaceOnlyPieces("Comment allez-vous ", m, "", 0);
    QuestionRest();
  }

  lemma QuestionPieces()
    ensures "Comment allez-vous point d'interrogation" == "Comment allez-vous " + "point d'interrogation" + ""
  {
  }

  lemma QuestionOneP()
    ensures 'p' !in Lower("Comment allez-vous ") && 'p' !in "point d'interrogation"[1..]
  {
    QuestionLowerHead();
    assert "point d'interrogation"[1..] == "oint d'interrogation";
  }

  lemma QuestionRest()
    ensures TrimEnd("Comment allez-vous ") == "Comment allez-vous" && DropSpace("") == ""
    ensures "Comment allez-vous" + "?" + "" == "Comment allez-vous?"
  {
  }

  lemma QuestionAfter()
    ensures forall i :: 1 <= i < |PunctuationCommands| ==>
              !Contains(Lower("Comment allez-vous?"), Lower(PunctuationCommands[i].command))
  {
    var lt := Lower("Comment allez-vous?");
    assert lt == "comment allez-vous?";
    QuestionLacks(lt);
    LacksPFGDA(lt);
  }

  lemma QuestionLacks(lt: string)
    requires lt == "comment allez-vous?"
    ensures 'p' !in lt && 'f' !in lt && 'g' !in lt && 'd' !in lt && 'à' !in lt
  {
  }

  /** A text without 'p', 'f', 'g', 'd' and 'à' holds no punctuation word
      after the first. */
  lemma LacksPFGDA(lt: string)
    requires 'p' !in lt && 'f' !in lt && 'g' !in lt && 'd' !in lt && 'à' !in lt
    ensures forall i :: 1 <= i < |PunctuationCommands| ==> !Contains(lt, Lower(PunctuationCommands[i].command))
  {
    LacksPFGDAHead(lt);
    LacksPFGDAMiddle(lt);
    LacksPFGDATail(lt);
  }

  lemma LacksPFGDAHead(lt: string)
    requires 'p' !in lt && 'f' !in lt
    ensures forall i :: 1 <= i < 5 ==> !Contains(lt, Lower(PunctuationCommands[i].command))
  {
    LacksPFGDAFirst(lt);
    Lacks(lt, PunctuationCommands[3].command, 7);
    Lacks(lt, PunctuationCommands[4].command, 0);
  }

  lemma LacksPFGDAFirst(lt: string)
    requires 'p' !in lt
    ensures forall i :: 1 <= i < 3 ==> !Contains(lt, Lower(PunctuationCommands[i].command))
  {
    Lacks(lt, PunctuationCommands[1].command, 0);
    Lacks(lt, PunctuationCommands[2].command, 8);
  }

  lemma LacksPFGDAMiddle(lt: string)
    requires 'p' !in lt && 'f' !in lt && 'g' !in lt
    ensures forall i :: 5 <= i < 8 ==> !Contains(lt, Lower(PunctuationCommands[i].command))
  {
    Lacks(lt, PunctuationCommands[5].command, 7);
    Lacks(lt, PunctuationCommands[6].command, 0);
    Lacks(lt, PunctuationCommands[7].command, 0);
  }

  lemma LacksPFGDATail(lt: string)
    requires 'p' !in lt && 'g' !in lt && 'd' !in lt && 'à' !in lt
    ensures forall i :: 8 <= i < |PunctuationCommands| ==> !Contains(lt, Lower(PunctuationCommands[i].command))
  {
    Lacks(lt, PunctuationCommands[8].command, 0);
    Lacks(lt, PunctuationCommands[9].command, 0);
    Lacks(lt, PunctuationCommands[10].command, 3);
    Lacks(lt, PunctuationCommands[11].command, 0);
  }

  // ---------------------------------------------------------------------------
  // "texte ouvrir parenthèse note fermer parenthèse suite"

  /** An opening symbol keeps the space before it and takes none after it;
      the closing one is glued to the text before it and followed by one
      space. */
  lemma ParenthesesEnclose()
    ensures ParseSpec("texte ouvrir parenthèse note fermer parenthèse suite", General)
         == ParseResult("texte (note) suite", [])
  {
    var t := "texte ouvrir parenthèse note fermer parenthèse suite";
    ParensLacks();
    NoEditWithoutC(t);
    ParensNoTrigger();
    ParseAsPunctuation(t);
    ParensReplaced();
    ParensTidy();
    CleanSpecOfTidy("texte (note) suite");
  }

  lemma ParensPieces()
    ensures "texte ouvrir parenthèse note fermer parenthèse suite"
         == "texte " + "ouvrir parenthèse" + " note fermer parenthèse suite"
  {
    ParensHead();
    assert "texte ouvrir parenthèse note fermer parenthèse suite"
        == "texte ouvrir parenthèse" + " note fermer parenthèse suite";
  }

  lemma ParensHead()
    ensures "texte ouvrir parenthèse" == "texte " + "ouvrir parenthèse"
    ensures "texte ouvrir parenthèse" == "texte" + " " + "ouvrir" + " " + "parenthèse"
  {
  }

  lemma ParensLowerPieces()
    ensures Lower("texte ") == "texte " && Lower(" note fermer parenthèse suite") == " note fermer parenthèse suite"
  {
  }

  lemma ParensLacks()
    ensures var lt := Lower("texte ouvrir parenthèse note fermer parenthèse suite");
      'c' !in lt && '\'' !in lt && 'g' !in lt
  {
    ParensPieces();
    OpenParen();
    ParensLowerPieces();
    LowerPieces("texte ", "ouvrir parenthèse", " note fermer parenthèse suite");
    ParensLackA();
    ParensLackC();
    ParensLackB();
  }

  lemma ParensLackA()
    ensures 'c' !in "texte " && '\'' !in "texte " && 'g' !in "texte "
  {
  }

  lemma ParensLackC()
    ensures 'c' !in "ouvrir parenthèse" && '\'' !in "ouvrir parenthèse" && 'g' !in "ouvrir parenthèse"
  {
  }

  lemma ParensLackB()
    ensures var b := " note fermer parenthèse suite"; 'c' !in b && '\'' !in b && 'g' !in b
  {
  }

  lemma ParensNoTrigger()
    ensures NoTriggerBeforeLast("texte ouvrir parenthèse note fermer parenthèse suite")
  {
    ParensHalves();
    ParensHead();
    ParensWords();
    ParensPlain();
    ParensRightNoTrigger();
    PlainThreeFirst("texte", "ouvrir", "parenthèse", "note fermer parenthèse suite");
  }

  lemma ParensHalves()
    ensures "texte ouvrir parenthèse note fermer parenthèse suite"
         == "texte ouvrir parenthèse" + " " + "note fermer parenthèse suite"
  {
  }

  lemma ParensRightNoTrigger()
    ensures NoTriggerBeforeLast("note fermer parenthèse suite")
  {
    ParensRightSplit();
    ParensWords();
    ParensPlain();
    var s3 := "suite";
    LastWord(s3);
    var s2 := "parenthèse" + " " + s3;
    PlainWordFirst("parenthèse", s3);
    var s1 := "fermer" + " " + s2;
    PlainWordFirst("fermer", s2);
    PlainWordFirst("note", s1);
  }

  lemma ParensRightSplit()
    ensures "note" + " " + ("fermer" + " " + ("parenthèse" + " " + "suite")) == "note fermer parenthèse suite"
  {
  }

  lemma ParensWords()
    ensures IsWord("texte") && IsWord("ouvrir") && IsWord("parenthèse")
    ensures IsWord("note") && IsWord("fermer") && IsWord("suite")
  {
  }

  lemma ParensPlain()
    ensures Plain(Lower("texte")) && Plain(Lower("ouvrir")) && Plain(Lower("parenthèse"))
    ensures Plain(Lower("note")) && Plain(Lower("fermer"))
  {
    assert Lower("texte") == "texte" && Lower("ouvrir") == "ouvrir" && Lower("parenthèse") == "parenthèse";
    assert Lower("note") == "note" && Lower("fermer") == "fermer";
  }

  lemma ParensTidy()
    ensures Tidy("texte (note) suite") && Trimmed("texte (note) suite")
  {
  }

  /** The two mappings of parentheses. */
  lemma OpenParen()
    ensures PunctuationCommands[3] == PunctuationMapping("ouvrir parenthèse", "(", OpenNoSpace)
    ensures Lower("ouvrir parenthèse") == "ouvrir parenthèse"
  {
  }

  lemma CloseParen()
    ensures PunctuationCommands[4] == PunctuationMapping("fermer parenthèse", ")", CloseWithSpace)
    ensures Lower("fermer parenthèse") == "fermer parenthèse"
  {
  }

  /** "ouvrir parenthèse", then "fermer parenthèse", each occurring once. */
  lemma ParensReplaced()
    ensures Punctuated("texte ouvrir parenthèse note fermer parenthèse suite") == "texte (note) suite"
  {
    var t := "texte ouvrir parenthèse note fermer parenthèse suite";
    ParensBeforeOpen();
    ReplaceAllStep(t, 3);
    ParensOpen();
    ReplaceAllStep(t, 4);
    ParensClose();
    ParensAfter();
    ReplaceAllFrom(t, 5);
  }

  lemma ParensBeforeOpen()
    ensures ReplaceAll("texte ouvrir parenthèse note fermer parenthèse suite", PunctuationCommands[..3])
         == "texte ouvrir parenthèse note fermer parenthèse suite"
  {
    var t := "texte ouvrir parenthèse note fermer parenthèse suite";
    TablesWellFormed();
    ParensLacks();
    Lacks(Lower(t), PunctuationCommands[0].command, 7);
    Lacks(Lower(t), PunctuationCommands[1].command, 7);
    Lacks(Lower(t), PunctuationCommands[2].command, 12);
    ReplaceAllUnchanged(t, PunctuationCommands[..3]);
  }

  lemma ParensOpen()
    ensures ReplacePunctuation("texte ouvrir parenthèse note fermer parenthèse suite", PunctuationCommands[3])
         == "texte (note fermer parenthèse suite"
  {
    OpenParen();
    ParensPieces();
    ParensOneV();
    ReplaceOnlyPieces("texte ", PunctuationCommands[3], " note fermer parenthèse suite", 2);
    ParensOpenRest();
  }

  lemma ParensOneV()
    ensures 'v' !in Lower("texte ") && 'v' !in "ouvrir parenthèse"[..2] && 'v' !in "ouvrir parenthèse"[3..]
    ensures 'v' !in Lower(" note fermer parenthèse suite") && "ouvrir parenthèse"[2] == 'v'
  {
    ParensLowerPieces();
    assert "ouvrir parenthèse"[3..] == "rir parenthèse";
  }

  lemma ParensOpenRest()
    ensures DropSpace(" note fermer parenthèse suite") == "note fermer parenthèse suite"
    ensures "texte " + "" + "(" + "note fermer parenthèse suite" == "texte (note fermer parenthèse suite"
  {
    assert "texte " + "" + "(" == "texte (";
    ParensOpened();
  }

  lemma ParensOpened()
    ensures "texte (" + "note fermer parenthèse suite" == "texte (note fermer parenthèse suite"
  {
  }

  lemma ParensClose()
    ensures ReplacePunctuation("texte (note fermer parenthèse suite", PunctuationCommands[4]) == "texte (note) suite"
  {
    CloseParen();
    ParensClosePieces();
    ReplaceOnlyPieces("texte (note ", PunctuationCommands[4], " suite", 0);
    ParensCloseRest();
  }

  lemma ParensClosePieces()
    ensures "texte (note fermer parenthèse suite" == "texte (note " + "fermer parenthèse" + " suite"
    ensures 'f' !in Lower("texte (note ") && 'f' !in "fermer parenthèse"[1..] && 'f' !in Lower(" suite")
  {
    ParensCloseHead();
    assert "texte (note fermer parenthèse suite" == "texte (note fermer parenthèse" + " suite";
    ParensOneF();
  }

  lemma ParensCloseHead()
    ensures "texte (note fermer parenthèse" == "texte (note " + "fermer parenthèse"
  {
  }

  lemma ParensOneF()
    ensures 'f' !in Lower("texte (note ") && 'f' !in "fermer parenthèse"[1..] && 'f' !in Lower(" suite")
  {
    assert Lower("texte (note ") == "texte (note " && Lower(" suite") == " suite";
    assert "fermer parenthèse"[1..] == "ermer parenthèse";
  }

  lemma ParensCloseRest()
    ensures TrimEnd("texte (note ") == "texte (note" && DropSpace(" suite") == "suite"
    ensures "texte (note" + ")" + " " + "suite" == "texte (note) suite"
  {
  }

  lemma ParensAfter()
    ensures forall i :: 5 <= i < |PunctuationCommands| ==>
              !Contains(Lower("texte (note) suite"), Lower(PunctuationCommands[i].command))
  {
    var lt := Lower("texte (note) suite");
    assert lt == "texte (note) suite";
    ParensAfterLacks(lt);
    LacksPFGDA(lt);
  }

  lemma ParensAfterLacks(lt: string)
    requires lt == "texte (note) suite"
    ensures 'p' !in lt && 'f' !in lt && 'g' !in lt && 'd' !in lt && 'à' !in lt
  {
  }

  // ---------------------------------------------------------------------------
  // "première ligne à la ligne deuxième ligne"

  /** "à la ligne" becomes a newline with the spaces around it dropped. */
  lemma NewlineBreaksLine()
    ensures ParseSpec("première ligne à la ligne deuxième ligne", General)
         == ParseResult("première ligne\ndeuxième ligne", [])
  {
    var t := "première ligne à la ligne deuxième ligne";
    LineLacks();
    NoEditWithoutC(t);
    LineNoTrigger();
    ParseAsPunctuation(t);
    LineReplaced();
    LineTidy();
    CleanSpecOfTidy("première ligne\ndeuxième ligne");
  }

  lemma LinePieces()
    ensures "première ligne à la ligne deuxième ligne" == "première ligne " + "à la ligne" + " deuxième ligne"
  {
  }

  lemma LineLowerPieces()
    ensures Lower("première ligne ") == "première ligne " && Lower(" deuxième ligne") == " deuxième ligne"
  {
  }

  lemma LineLacks()
    ensures var lt := Lower("première ligne à la ligne deuxième ligne");
      'c' !in lt && 'o' !in lt && 'f' !in lt
  {
    LinePieces();
    NewLine();
    LineLowerPieces();
    LowerPieces("première ligne ", "à la ligne", " deuxième ligne");
    LineLackA();
    LineLackC();
    LineLackB();
  }

  lemma LineLackA()
    ensures 'c' !in "première ligne " && 'o' !in "première ligne " && 'f' !in "première ligne "
  {
  }

  lemma LineLackC()
    ensures 'c' !in "à la ligne" && 'o' !in "à la ligne" && 'f' !in "à la ligne"
  {
  }

  lemma LineLackB()
    ensures 'c' !in " deuxième ligne" && 'o' !in " deuxième ligne" && 'f' !in " deuxième ligne"
  {
  }

  lemma LineNoTrigger()
    ensures NoTriggerBeforeLast("première ligne à la ligne deuxième ligne")
  {
    LineSplit();
    LineWords();
    LinePlain();
    var s6 := "ligne";
    LastWord(s6);
    var s5 := "deuxième" + " " + s6;
    PlainWordFirst("deuxième", s6);
    var s4 := "ligne" + " " + s5;
    PlainWordFirst("ligne", s5);
    var s3 := "la" + " " + s4;
    PlainWordFirst("la", s4);
    var s2 := "à" + " " + s3;
    PlainWordFirst("à", s3);
    var s1 := "ligne" + " " + s2;
    PlainWordFirst("ligne", s2);
    PlainWordFirst("première", s1);
  }

  lemma LineSplit()
    ensures "première" + " " + ("ligne" + " " + ("à" + " " + ("la" + " "
              + ("ligne" + " " + ("deuxième" + " " + "ligne")))))
         == "première ligne à la ligne deuxième ligne"
  {
  }

  lemma LineWords()
    ensures IsWord("première") && IsWord("ligne") && IsWord("à") && IsWord("la") && IsWord("deuxième")
  {
  }

  lemma LinePlain()
    ensures Plain(Lower("première")) && Plain(Lower("ligne")) && Plain(Lower("à"))
    ensures Plain(Lower("la")) && Plain(Lower("deuxième"))
  {
    assert Lower("première") == "première" && Lower("ligne") == "ligne" && Lower("à") == "à";
    assert Lower("la") == "la" && Lower("deuxième") == "deuxième";
  }

  lemma LineTidy()
    ensures Tidy("première ligne\ndeuxième ligne") && Trimmed("première ligne\ndeuxième ligne")
  {
    NoSpaceTidy("première");
    LineTailTidy();
    TidySpaced("première", "ligne\ndeuxième ligne");
    assert "première ligne\ndeuxième ligne" == "première " + "ligne\ndeuxième ligne";
  }

  lemma LineTailTidy()
    ensures Tidy("ligne\ndeuxième ligne")
  {
    NoSpaceTidy("ligne\ndeuxième");
    NoSpaceTidy("ligne");
    TidySpaced("ligne\ndeuxième", "ligne");
    assert "ligne\ndeuxième ligne" == "ligne\ndeuxième" + " " + "ligne";
  }

  /** The mapping of "à la ligne". */
  lemma NewLine()
    ensures PunctuationCommands[9] == PunctuationMapping("à la ligne", "\n", Newline)
    ensures Lower("à la ligne") == "à la ligne"
  {
  }

  /** Only "à la ligne" applies. */
  lemma LineReplaced()
    ensures Punctuated("première ligne à la ligne deuxième ligne") == "première ligne\ndeuxième ligne"
  {
    var t := "première ligne à la ligne deuxième ligne";
    LineBeforeNewline();
    ReplaceAllStep(t, 9);
    LineBreak();
    LineAfter();
    ReplaceAllFrom(t, 10);
  }

  lemma LineBeforeNewline()
    ensures ReplaceAll("première ligne à la ligne deuxième ligne", PunctuationCommands[..9])
         == "première ligne à la ligne deuxième ligne"
  {
    var t := "première ligne à la ligne deuxième ligne";
    TablesWellFormed();
    LineLacks();
    LacksOF(Lower(t));
    ReplaceAllUnchanged(t, PunctuationCommands[..9]);
  }

  /** A text without 'o' and 'f' holds none of the first nine punctuation
      words. */
  lemma LacksOF(lt: string)
    requires 'o' !in lt && 'f' !in lt
    ensures forall i :: 0 <= i < 9 ==> !Contains(lt, Lower(PunctuationCommands[i].command))
  {
    LacksOFHead(lt);
    LacksOFMiddle(lt);
    LacksOFTail(lt);
  }

  lemma LacksOFHead(lt: string)
    requires 'o' !in lt
    ensures forall i :: 0 <= i < 3 ==> !Contains(lt, Lower(PunctuationCommands[i].command))
  {
    Lacks(lt, PunctuationCommands[0].command, 1);
    Lacks(lt, PunctuationCommands[1].command, 1);
    Lacks(lt, PunctuationCommands[2].command, 1);
  }

  lemma LacksOFMiddle(lt: string)
    requires 'o' !in lt && 'f' !in lt
    ensures forall i :: 3 <= i < 6 ==> !Contains(lt, Lower(PunctuationCommands[i].command))
  {
    Lacks(lt, PunctuationCommands[3].command, 0);
    Lacks(lt, PunctuationCommands[4].command, 0);
    Lacks(lt, PunctuationCommands[5].command, 0);
  }

  lemma LacksOFTail(lt: string)
    requires 'o' !in lt && 'f' !in lt
    ensures forall i :: 6 <= i < 9 ==> !Contains(lt, Lower(PunctuationCommands[i].command))
  {
    Lacks(lt, PunctuationCommands[6].command, 0);
    Lacks(lt, PunctuationCommands[7].command, 1);
    Lacks(lt, PunctuationCommands[8].command, 6);
  }

  lemma LineBreak()
    ensures ReplacePunctuation("première ligne à la ligne deuxième ligne", PunctuationCommands[9])
         == "première ligne\ndeuxième ligne"
  {
    NewLine();
    LinePieces();
    LineOneA();
    ReplaceOnlyPieces("première ligne ", PunctuationCommands[9], " deuxième ligne", 0);
    LineRest();
  }

  lemma LineOneA()
    ensures 'à' !in Lower("première ligne ") && 'à' !in "à la ligne"[1..] && 'à' !in Lower(" deuxième ligne")
  {
    LineLowerPieces();
    assert "à la ligne"[1..] == " la ligne";
  }

  lemma LineRest()
    ensures TrimEnd("première ligne ") == "première ligne" && DropSpace(" deuxième ligne") == "deuxième ligne"
    ensures "première ligne" + "\n" + "deuxième ligne" == "première ligne\ndeuxième ligne"
  {
  }

  lemma LineAfter()
    ensures forall i :: 10 <= i < |PunctuationCommands| ==>
              !Contains(Lower("première ligne\ndeuxième ligne"), Lower(PunctuationCommands[i].command))
  {
    var lt := Lower("première ligne\ndeuxième ligne");
    assert lt == "première ligne\ndeuxième ligne";
    LineAfterLacks(lt);
    Lacks(lt, PunctuationCommands[10].command, 0);
    Lacks(lt, PunctuationCommands[11].command, 1);
  }

  lemma LineAfterLacks(lt: string)
    requires lt == "première ligne\ndeuxième ligne"
    ensures 'v' !in lt && 'o' !in lt
  {
  }
}
