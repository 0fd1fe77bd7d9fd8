/** Concrete inputs and outputs of the voice-command parser, matching the
    expectations written next to the parser (src-tauri/src/voice_commands/parser.rs
    tests), derived from the general lemmas plus the facts about the literals
    that the verifier cannot see by itself. */
module VoiceParserExamples {
  import opened Wrappers
  import opened Text
  import opened Types
  import opened VoiceParser
  import opened VoiceParserProperties

  /** A phrase holding, at index `k`, a character whose lower case the
      lower-cased text `lt` lacks does not occur in `lt`. */
  lemma Lacks(lt: string, phrase: string, k: nat)
    requires k < |phrase| && LowerChar(phrase[k]) !in lt
    ensures !Contains(lt, Lower(phrase))
  {
    AbsentCharNoMatch(lt, Lower(phrase), k);
  }

  /** A text without 'p', 'v', 'f' and 'à' holds no punctuation word. */
  lemma NoPunctuationWithout(text: string)
    requires 'p' !in Lower(text) && 'v' !in Lower(text) && 'f' !in Lower(text) && 'à' !in Lower(text)
    ensures NoPunctuationWord(text)
  {
    NoPunctuationWithoutHead(Lower(text));
    NoPunctuationWithoutMiddle(Lower(text));
    NoPunctuationWithoutTail(Lower(text));
  }

  lemma NoPunctuationWithoutHead(lt: string)
    requires 'p' !in lt && 'v' !in lt
    ensures forall k :: 0 <= k < 4 ==> !Contains(lt, Lower(PunctuationCommands[k].command))
  {
    Lacks(lt, PunctuationCommands[0].command, 0);
    Lacks(lt, PunctuationCommands[1].command, 0);
    Lacks(lt, PunctuationCommands[2].command, 3);
    Lacks(lt, PunctuationCommands[3].command, 2);
  }

  lemma NoPunctuationWithoutMiddle(lt: string)
    requires 'p' !in lt && 'v' !in lt && 'f' !in lt
    ensures forall k :: 4 <= k < 8 ==> !Contains(lt, Lower(PunctuationCommands[k].command))
  {
    Lacks(lt, PunctuationCommands[4].command, 0);
    Lacks(lt, PunctuationCommands[5].command, 2);
    Lacks(lt, PunctuationCommands[6].command, 0);
    Lacks(lt, PunctuationCommands[7].command, 0);
  }

  lemma NoPunctuationWithoutTail(lt: string)
    requires 'p' !in lt && 'v' !in lt && 'à' !in lt
    ensures forall k :: 8 <= k < 12 ==> !Contains(lt, Lower(PunctuationCommands[k].command))
  {
    Lacks(lt, PunctuationCommands[8].command, 5);
    Lacks(lt, PunctuationCommands[9].command, 0);
    Lacks(lt, PunctuationCommands[10].command, 0);
    Lacks(lt, PunctuationCommands[11].command, 0);
  }

  /** A text without 'f', 'j' and 'p', and without 'l' or without 'u', holds
      no edit phrase. */
  lemma NoEditWithout(text: string)
    requires 'f' !in Lower(text) && 'j' !in Lower(text) && 'p' !in Lower(text)
    requires 'l' !in Lower(text) || 'u' !in Lower(text)
    ensures NoPhraseOf(text, EditCommands)
  {
    NoEditWithoutHead(Lower(text));
    NoEditWithoutTail(Lower(text));
  }

  lemma NoEditWithoutHead(lt: string)
    requires 'f' !in lt && 'j' !in lt
    requires 'l' !in lt || 'u' !in lt
    ensures forall k :: 0 <= k < 3 ==> !Contains(lt, Lower(EditCommands[k].0))
  {
    Lacks(lt, EditCommands[0].0, 15);
    Lacks(lt, EditCommands[1].0, 11);
    if 'l' !in lt {
      Lacks(lt, EditCommands[2].0, 13);
    } else {
      Lacks(lt, EditCommands[2].0, 12);
    }
  }

  lemma NoEditWithoutTail(lt: string)
    requires 'f' !in lt && 'p' !in lt
    ensures forall k :: 3 <= k < 6 ==> !Contains(lt, Lower(EditCommands[k].0))
  {
    Lacks(lt, EditCommands[3].0, 10);
    Lacks(lt, EditCommands[4].0, 11);
    Lacks(lt, EditCommands[5].0, 12);
  }

  /** "commande signature" is only a command in Email mode: in General mode it
      stays as text and raises nothing. */
  lemma SignatureIsTextInGeneralMode()
    ensures ParseSpec("commande signature", General) == ParseResult("commande signature", [])
  {
    var t := "commande signature";
    SignatureAbsentChars();
    NoEditWithout(t);
    NoPunctuationWithout(t);
    SignatureNoTrigger();
    SignatureTidy();
    ParseUnchanged(t, General);
  }

  lemma SignatureAbsentChars()
    ensures var lt := Lower("commande signature");
      'f' !in lt && 'j' !in lt && 'l' !in lt && 'p' !in lt && 'v' !in lt && 'à' !in lt
  {
    SignatureLower();
    SignatureLacks(Lower("commande signature"));
  }

  lemma SignatureLacks(lt: string)
    requires lt == "commande signature"
    ensures 'f' !in lt && 'j' !in lt && 'l' !in lt && 'p' !in lt && 'v' !in lt && 'à' !in lt
  {
    assert 'f' !in lt && 'j' !in lt;
    assert 'l' !in lt && 'p' !in lt;
  }

  lemma SignatureTidy()
    ensures Tidy("commande signature") && Trimmed("commande signature")
  {
    NoSpaceTidy("commande");
    NoSpaceTidy("signature");
    TidySpaced("commande", "signature");
    assert "commande signature" == "commande " + "signature";
  }

  lemma SignatureLower()
    ensures Lower("commande signature") == "commande signature"
  {
  }

  lemma SignatureNoTrigger()
    ensures forall j :: 0 <= j < |Words("commande signature")| - 1 ==> !IsTrigger(Lower(Words("commande signature")[j]))
  {
    SignatureWords();
    CommandeNotTrigger();
  }

  lemma SignatureWords()
    ensures Words("commande signature") == ["commande", "signature"]
  {
    TwoWords("commande", "signature");
    SignaturePieces();
  }

  lemma SignaturePieces()
    ensures "commande" + " " + "signature" == "commande signature"
  {
  }

  lemma CommandeNotTrigger()
    ensures !IsTrigger(Lower("commande"))
  {
    assert Lower("commande")[0] == 'c';
    NotTriggerByInitial(Lower("commande"));
  }

  /** A text without 'c' holds no edit phrase: they all start with "commande". */
  lemma NoEditWithoutC(text: string)
    requires 'c' !in Lower(text)
    ensures NoPhraseOf(text, EditCommands)
  {
    var lt := Lower(text);
    Lacks(lt, EditCommands[0].0, 0);
    Lacks(lt, EditCommands[1].0, 0);
    Lacks(lt, EditCommands[2].0, 0);
    Lacks(lt, EditCommands[3].0, 0);
    Lacks(lt, EditCommands[4].0, 0);
    Lacks(lt, EditCommands[5].0, 0);
  }

  /** A text without 'd', 'v', 'f' and 'à' holds no punctuation word other
      than "point". */
  lemma OnlyPointWithout(lt: string)
    requires 'd' !in lt && 'v' !in lt && 'f' !in lt && 'à' !in lt
    ensures forall k :: 0 <= k < 11 ==> !Contains(lt, Lower(PunctuationCommands[k].command))
  {
    OnlyPointWithoutHead(lt);
    OnlyPointWithoutTail(lt);
  }

  lemma OnlyPointWithoutHead(lt: string)
    requires 'd' !in lt && 'v' !in lt && 'f' !in lt
    ensures forall k :: 0 <= k < 6 ==> !Contains(lt, Lower(PunctuationCommands[k].command))
  {
    Lacks(lt, PunctuationCommands[0].command, 6);
    Lacks(lt, PunctuationCommands[1].command, 6);
    Lacks(lt, PunctuationCommands[2].command, 3);
    Lacks(lt, PunctuationCommands[3].command, 2);
    Lacks(lt, PunctuationCommands[4].command, 0);
    Lacks(lt, PunctuationCommands[5].command, 2);
  }

  lemma OnlyPointWithoutTail(lt: string)
    requires 'd' !in lt && 'v' !in lt && 'f' !in lt && 'à' !in lt
    ensures forall k :: 6 <= k < 11 ==> !Contains(lt, Lower(PunctuationCommands[k].command))
  {
    Lacks(lt, PunctuationCommands[6].command, 0);
    Lacks(lt, PunctuationCommands[7].command, 6);
    Lacks(lt, PunctuationCommands[8].command, 0);
    Lacks(lt, PunctuationCommands[9].command, 0);
    Lacks(lt, PunctuationCommands[10].command, 0);
  }

  /** "Bonjour point" becomes "Bonjour.": the word is replaced, the space
      before it dropped, and no space follows at the end of the text. */
  lemma PointEndsSentence()
    ensures ParseSpec("Bonjour point", General) == ParseResult("Bonjour.", [])
  {
    var t := "Bonjour point";
    TablesWellFormed();
    BonjourLower();
    BonjourLacks(Lower(t));
    NoEditWithoutC(t);
    ExtractTableUnchanged(t, EditCommands);
    BonjourNoTrigger();
    AppCommandNone(t);
    OnlyPointWithout(Lower(t));
    BonjourReplaced();
    BonjourTidy();
    CleanSpecOfTidy("Bonjour.");
  }

  lemma BonjourLower()
    ensures Lower("Bonjour point") == "bonjour point"
  {
  }

  lemma BonjourLacks(lt: string)
    requires lt == "bonjour point"
    ensures 'c' !in lt && 'd' !in lt && 'v' !in lt && 'f' !in lt && 'à' !in lt
  {
    assert 'c' !in lt && 'd' !in lt;
    assert 'v' !in lt && 'f' !in lt;
  }

  lemma BonjourNoTrigger()
    ensures forall j :: 0 <= j < |Words("Bonjour point")| - 1 ==> !IsTrigger(Lower(Words("Bonjour point")[j]))
  {
    var ws := ["Bonjour", "point"];
    assert Join(ws, " ") == "Bonjour point";
    WordsJoin(ws);
    assert Lower("Bonjour")[0] == 'b';
    NotTriggerByInitial(Lower("Bonjour"));
  }

  /** Every trigger starts with 'o', 'l', 'm' or 'd'. */
  lemma NotTriggerByInitial(w: string)
    requires w != [] && w[0] != 'o' && w[0] != 'l' && w[0] != 'm' && w[0] != 'd'
    ensures !IsTrigger(w)
  {
    assert forall t :: 0 <= t < |AppTriggers| ==> Lower(AppTriggers[t])[0] in "olmd";
  }

  /** Only the last mapping, "point", applies. */
  lemma BonjourReplaced()
    requires forall k :: 0 <= k < 11 ==> !Contains(Lower("Bonjour point"), Lower(PunctuationCommands[k].command))
    ensures ReplaceAll("Bonjour point", PunctuationCommands) == "Bonjour."
  {
    var t := "Bonjour point";
    var m := PunctuationCommands[11];
    TablesWellFormed();
    assert PunctuationCommands[..|PunctuationCommands| - 1] == PunctuationCommands[..11];
    ReplaceAllUnchanged(t, PunctuationCommands[..11]);
    assert ReplaceAll(t, PunctuationCommands) == ReplacePunctuation(t, m);
    BonjourFindPoint();
    ReplaceFromStep(t, m, 0, 0, [], 8);
    assert AfterStart(t, 13) == 13;
    BonjourEmit();
  }

  lemma BonjourFindPoint()
    ensures FindFrom(Lower("Bonjour point"), Lower(PunctuationCommands[11].command), 0) == Some(8)
  {
    var lt := Lower("Bonjour point");
    BonjourLower();
    assert Lower(PunctuationCommands[11].command) == "point";
    assert lt[8..13] == "point";
    forall j | 0 <= j < 8 ensures !OccursAt(lt, "point", j) {
      assert lt[j] != 'p';
      if j + 5 <= |lt| {
        assert lt[j..j + 5][0] == lt[j];
      }
    }
    FindFromFirst(lt, "point", 0, 8);
  }

  lemma BonjourEmit()
    ensures ReplaceFrom("Bonjour point", PunctuationCommands[11], 13, 13,
              Emit([], "Bonjour point"[0..8], PunctuationCommands[11], false)) == "Bonjour."
  {
    var t := "Bonjour point";
    assert TrimEnd("Bonjour ") == "Bonjour";
    assert "Bonjour point"[0..8] == "Bonjour ";
    assert FindFrom(Lower(t), Lower(PunctuationCommands[11].command), 13) == None;
  }

  lemma BonjourTidy()
    ensures Tidy("Bonjour.") && Trimmed("Bonjour.")
  {
  }

  /** No phrase occurs in the empty text. */
  lemma NothingInEmpty(phrase: string)
    requires phrase != []
    ensures !Contains(Lower(""), Lower(phrase))
  {
  }

  lemma EmptyHasNoPhrase(table: CommandTable)
    requires forall k :: 0 <= k < |table| ==> table[k].0 != []
    ensures NoPhraseOf("", table)
  {
    forall k | 0 <= k < |table| ensures !Contains(Lower(""), Lower(table[k].0)) {
      NothingInEmpty(table[k].0);
    }
  }

  /** What parsing the empty text after the edit phrases leaves: nothing. */
  lemma EmptyAfterEdits()
    ensures AppCommandSpec("") == ParseResult("", [])
    ensures ReplaceAll("", PunctuationCommands) == ""
    ensures CleanSpec("") == ""
  {
    TablesWellFormed();
    assert Words("") == [];
    LoneTrigger("");
    forall k | 0 <= k < |PunctuationCommands|
      ensures !Contains(Lower(""), Lower(PunctuationCommands[k].command))
    {
      NothingInEmpty(PunctuationCommands[k].command);
    }
    ReplaceAllUnchanged("", PunctuationCommands);
  }

  /** "commande tout effacer" raises ClearAll and leaves no text. */
  lemma ClearAllLeavesNothing()
    ensures ParseSpec("commande tout effacer", General) == ParseResult("", [ClearAll])
  {
    ClearAllExtracted();
    EmptyAfterEdits();
  }

  lemma ClearAllExtracted()
    ensures ExtractTable("commande tout effacer", EditCommands) == ParseResult("", [ClearAll])
  {
    var t := "commande tout effacer";
    var e := EditCommands;
    ExtractTableConcat(t, e[..1], e[1..]);
    assert e[..1] + e[1..] == e;
    ClearAllFirstPhrase();
    EmptyAfterClearAll();
  }

  lemma EmptyAfterClearAll()
    ensures ExtractTable("", EditCommands[1..]) == ParseResult("", [])
  {
    EmptyHasNoPhrase(EditCommands[1..]);
    ExtractTableUnchanged("", EditCommands[1..]);
  }

  lemma ClearAllFirstPhrase()
    ensures ExtractTable("commande tout effacer", EditCommands[..1]) == ParseResult("", [ClearAll])
  {
    ClearAllFound();
    assert EditCommands[..1][..0] == [];
  }

  lemma ClearAllFound()
    ensures ExtractCommand("commande tout effacer", EditCommands[0].0) == Extraction("", true)
  {
    var t := "commande tout effacer";
    var lt := Lower(t);
    assert EditCommands[0].0 == t;
    assert lt[0..|t|] == lt;
    FindFromFirst(lt, lt, 0, 0);
    assert t[..0] == [] && t[|t|..] == [];
  }

  /** "texte commande efface" raises Delete and keeps "texte". */
  lemma DeleteKeepsPrecedingText()
    ensures ParseSpec("texte commande efface", General) == ParseResult("texte", [Delete])
  {
    DeleteExtracted();
    TexteNoApp();
    TexteNoPunctuation();
    TexteClean();
  }

  lemma TexteNoApp()
    ensures AppCommandSpec("texte") == ParseResult("texte", [])
  {
    WordsJoin(["texte"]);
    LoneTrigger("texte");
  }

  lemma TexteNoPunctuation()
    ensures ReplaceAll("texte", PunctuationCommands) == "texte"
  {
    TexteLacks(Lower("texte"));
    NoPunctuationWithout("texte");
    TablesWellFormed();
    ReplaceAllUnchanged("texte", PunctuationCommands);
  }

  lemma TexteClean()
    ensures CleanSpec("texte") == "texte"
  {
    CleanSpecOfTidy("texte");
  }

  lemma TexteLacks(lt: string)
    requires lt == Lower("texte")
    ensures 'p' !in lt && 'v' !in lt && 'f' !in lt && 'à' !in lt
  {
    assert lt == "texte";
  }

  lemma DeleteExtracted()
    ensures ExtractTable("texte commande efface", EditCommands) == ParseResult("texte", [Delete])
  {
    var t := "texte commande efface";
    var e := EditCommands;
    ExtractTableConcat(t, e[..3], e[3..]);
    assert e[..3] + e[3..] == e;
    DeleteNotBefore();
    ExtractTableUnchanged(t, e[..3]);
    DeleteFromFourth();
  }

  /** From the fourth phrase on, "commande efface" is found and dropped. */
  lemma DeleteFromFourth()
    ensures ExtractTable("texte commande efface", EditCommands[3..]) == ParseResult("texte", [Delete])
  {
    var t := "texte commande efface";
    var e := EditCommands;
    ExtractTableConcat(t, e[3..4], e[4..]);
    assert e[3..4] + e[4..] == e[3..];
    FourthPhrase();
    TexteNoLaterPhrase();
    ExtractTableUnchanged("texte", e[4..]);
  }

  /** The fourth phrase alone, "commande efface", is found and dropped. */
  lemma FourthPhrase()
    ensures ExtractTable("texte commande efface", EditCommands[3..4]) == ParseResult("texte", [Delete])
  {
    var entry := EditCommands[3];
    assert EditCommands[3..4] == [entry];
    ExtractOneEntry("texte commande efface", entry);
    DeleteFound();
  }

  /** A table of one phrase extracts that phrase. */
  lemma ExtractOneEntry(text: string, entry: (string, Action))
    ensures ExtractTable(text, [entry]) ==
              ParseResult(ExtractCommand(text, entry.0).text, if ExtractCommand(text, entry.0).found then [entry.1] else [])
  {
    assert [entry][..0] == [];
  }

  lemma DeleteNotBefore()
    ensures NoPhraseOf("texte commande efface", EditCommands[..3])
  {
    var lt := Lower("texte commande efface");
    DeleteLacks(lt);
    Lacks(lt, EditCommands[0].0, 11);
    Lacks(lt, EditCommands[1].0, 11);
    Lacks(lt, EditCommands[2].0, 12);
  }

  lemma DeleteLower()
    ensures Lower("texte commande efface") == "texte commande efface"
  {
  }

  lemma DeleteLacks(lt: string)
    requires lt == Lower("texte commande efface")
    ensures 'u' !in lt && 'j' !in lt
  {
    DeleteLower();
  }

  lemma DeleteFound()
    ensures ExtractCommand("texte commande efface", EditCommands[3].0) == Extraction("texte", true)
  {
    var t := "texte commande efface";
    DeleteFindsPhrase();
    assert t[..6] == "texte ";
    assert TrimEnd("texte ") == "texte";
    assert t[21..] == [];
  }

  lemma DeleteFindsPhrase()
    ensures Find(Lower("texte commande efface"), Lower(EditCommands[3].0)) == Some(6)
  {
    var t := "texte commande efface";
    var lt := Lower(t);
    DeleteLower();
    assert Lower(EditCommands[3].0) == "commande efface";
    assert lt[6..21] == "commande efface";
    forall j | 0 <= j < 6 ensures !OccursAt(lt, "commande efface", j) {
      assert lt[j] != 'c';
      if j + 15 <= |lt| {
        assert lt[j..j + 15][0] == lt[j];
      }
    }
    FindFromFirst(lt, "commande efface", 0, 6);
  }

  lemma TexteNoLaterPhrase()
    ensures NoPhraseOf("texte", EditCommands[4..])
  {
    var lt := Lower("texte");
    assert lt == "texte";
    Lacks(lt, EditCommands[4].0, 11);
    Lacks(lt, EditCommands[5].0, 12);
  }

  // ---------------------------------------------------------------------------
  // Opening an application

  /** "ouvre Safari" is a trigger and an app name and nothing else: the
      text is empty and the one action opens Safari. */
  lemma OpenSafari()
    ensures ParseSpec("ouvre Safari", General) == ParseResult("", [OpenApp("Safari")])
  {
    var t := "ouvre Safari";
    TablesWellFormed();
    SafariLower();
    NoEditWithoutC(t);
    ExtractTableUnchanged(t, EditCommands);
    SafariApp();
    SafariRest();
  }

  /** Nothing is left for the punctuation and clean-up stages. */
  lemma SafariRest()
    ensures forall k :: 0 <= k < |PunctuationCommands| ==> WellFormed(PunctuationCommands[k])
    ensures CleanSpec(ReplaceAll("", PunctuationCommands)) == ""
  {
    TablesWellFormed();
    NoPunctuationWithout("");
    ReplaceAllUnchanged("", PunctuationCommands);
    CleanSpecOfTidy("");
  }

  lemma SafariApp()
    ensures AppCommandSpec("ouvre Safari") == ParseResult("", [OpenApp("Safari")])
  {
    SafariWords();
    var words := ["ouvre", "Safari"];
    SafariTrigger(LowerAll(words));
    assert WithoutPair(words, 0) == [];
  }

  lemma SafariTrigger(lw: seq<string>)
    requires |lw| == 2 && lw[0] == Lower("ouvre")
    ensures FirstTrigger(lw, AppTriggers) == Some(0)
  {
    assert AppTriggers[0] == "ouvre";
  }

  lemma SafariLower()
    ensures Lower("ouvre Safari") == "ouvre safari"
  {
  }

  lemma SafariWords()
    ensures Words("ouvre Safari") == ["ouvre", "Safari"]
  {
    TwoWords("ouvre", "Safari");
    assert "ouvre Safari" == "ouvre" + " " + "Safari";
  }

  /** Two words separated by one space split into those two words. */
  lemma TwoWords(w1: string, w2: string)
    requires IsWord(w1) && IsWord(w2)
    ensures Words(w1 + " " + w2) == [w1, w2]
  {
    WordsCons(w2, []);
    assert w2 + [] == w2;
    WordsAfterWhite(' ', w2);
    assert [' '] + w2 == " " + w2;
    WordsCons(w1, " " + w2);
    assert w1 + (" " + w2) == w1 + " " + w2;
  }
}
