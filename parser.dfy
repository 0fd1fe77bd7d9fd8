/** The voice-command parser: turns recognised French speech into cleaned
    text plus an ordered list of actions. The pipeline is fixed: the current
    dictation mode's contextual phrases, then the `commande …` edit phrases,
    then one app-open trigger, then the punctuation words (longest first), then
    whitespace cleanup. Each stage is a method with the loop of the original,
    proved equal to a specification function; the lemmas at the end are about
    those functions. */
module VoiceParser {
  import opened Wrappers
  import opened Text
  import opened Types

  datatype Action =
    | Delete
    | Undo
    | ClearAll
    | Uppercase
    | Copy
    | Stop
    | InsertSignature
    | InsertGreeting
    | InsertFunction
    | InsertComment
    | InsertBullet
    | InsertTitle
    | OpenApp(name: string)

  datatype ParseResult = ParseResult(text: string, actions: seq<Action>)

  datatype SpacingRule = CloseWithSpace | CloseNoSpace | OpenNoSpace | Newline

  datatype PunctuationMapping = PunctuationMapping(command: string, replacement: string, spacing: SpacingRule)

  type CommandTable = seq<(string, Action)>

  /** Ordered from the longest command to the shortest. */
  const PunctuationCommands: seq<PunctuationMapping> := [
    PunctuationMapping("point d'interrogation", "?", CloseWithSpace),
    PunctuationMapping("point d'exclamation", "!", CloseWithSpace),
    PunctuationMapping("nouveau paragraphe", "\n\n", Newline),
    PunctuationMapping("ouvrir parenthèse", "(", OpenNoSpace),
    PunctuationMapping("fermer parenthèse", ")", CloseWithSpace),
    PunctuationMapping("ouvrir guillemets", "«", OpenNoSpace),
    PunctuationMapping("fermer guillemets", "»", CloseWithSpace),
    PunctuationMapping("point virgule", ";", CloseWithSpace),
    PunctuationMapping("deux points", ":", CloseWithSpace),
    PunctuationMapping("à la ligne", "\n", Newline),
    PunctuationMapping("virgule", ",", CloseWithSpace),
    PunctuationMapping("point", ".", CloseWithSpace)
  ]

  /** Imperative verbs only, so that "ouvrir parenthèse" is never an app trigger. */
  const AppTriggers: seq<string> := ["ouvre", "lance", "mets", "démarre", "demarre"]

  const EditCommands: CommandTable := [
    ("commande tout effacer", ClearAll),
    ("commande majuscules", Uppercase),
    ("commande annuler", Undo),
    ("commande efface", Delete),
    ("commande copier", Copy),
    ("commande stop", Stop)
  ]

  const EmailCommands: CommandTable := [
    ("commande formule politesse", InsertGreeting),
    ("commande signature", InsertSignature)
  ]

  const CodeCommands: CommandTable := [
    ("commande commentaire", InsertComment),
    ("commande fonction", InsertFunction)
  ]

  const NotesCommands: CommandTable := [
    ("commande titre", InsertTitle),
    ("commande puce", InsertBullet)
  ]

  function ContextualCommands(mode: DictationMode): CommandTable {
    match mode
    case Email => EmailCommands
    case Code => CodeCommands
    case Notes => NotesCommands
    case General => []
  }

  /** The actions a table can produce, in table order. */
  function TableActions(table: CommandTable): (acts: seq<Action>)
    ensures |acts| == |table|
    ensures forall k :: 0 <= k < |table| ==> acts[k] == table[k].1
  {
    seq(|table|, k requires 0 <= k < |table| => table[k].1)
  }

  /** The actions only a dictation mode other than General can produce. */
  predicate IsContextual(a: Action) {
    a.InsertSignature? || a.InsertGreeting? || a.InsertFunction? ||
    a.InsertComment? || a.InsertBullet? || a.InsertTitle?
  }

  // ---------------------------------------------------------------------------
  // Edit and contextual phrases

  /** The text after one phrase was looked for, and whether it was found. */
  datatype Extraction = Extraction(text: string, found: bool)

  /** `extract_command`: removes the first case-insensitive occurrence of
      `command` and rejoins the trimmed remainders with one space when both are
      non-empty. */
  function ExtractCommand(text: string, command: string): (e: Extraction)
    ensures e.found <==> Contains(Lower(text), Lower(command))
    ensures !e.found ==> e.text == text
  {
    FindIffContains(Lower(text), Lower(command));
    match Find(Lower(text), Lower(command))
    case None => Extraction(text, false)
    case Some(pos) => Extraction(Rejoined(text[..pos], text[pos + |command|..]), true)
  }

  /** When the phrase first occurs at `pos`, ignoring case, it is found and
      cut out there, and the text on both sides is rejoined. */
  lemma ExtractCommandFound(text: string, command: string, pos: nat)
    requires FirstAt(Lower(text), Lower(command), pos)
    ensures pos + |command| <= |text|
    ensures ExtractCommand(text, command) == Extraction(Rejoined(text[..pos], text[pos + |command|..]), true)
  {
    FindIsFirst(Lower(text), Lower(command), pos);
    ExtractCommandAt(text, command, pos);
  }

  lemma ExtractCommandAt(text: string, command: string, pos: nat)
    requires Find(Lower(text), Lower(command)) == Some(pos) && pos + |command| <= |text|
    ensures ExtractCommand(text, command) == Extraction(Rejoined(text[..pos], text[pos + |command|..]), true)
  {
  }

  /** The text on both sides of a removed phrase, trimmed where they meet and
      separated by one space when both are non-empty. */
  function Rejoined(before: string, after: string): string {
    var b := TrimEnd(before);
    var a := TrimStart(after);
    b + (if b != [] && a != [] then " " else "") + a
  }

  /** All phrases of `table` extracted in order, with the actions they raised. */
  function ExtractTable(text: string, table: CommandTable): ParseResult
    decreases |table|
  {
    if table == [] then ParseResult(text, [])
    else
      var prev := ExtractTable(text, table[..|table| - 1]);
      var e := ExtractCommand(prev.text, table[|table| - 1].0);
      ParseResult(e.text, prev.actions + (if e.found then [table[|table| - 1].1] else []))
  }

  // ---------------------------------------------------------------------------
  // App-open triggers

  function LowerAll(words: seq<string>): (lw: seq<string>)
    ensures |lw| == |words|
    ensures forall k :: 0 <= k < |words| ==> lw[k] == Lower(words[k])
  {
    seq(|words|, k requires 0 <= k < |words| => Lower(words[k]))
  }

  /** The first index at or after `from` holding `trigger` with a word after it. */
  function TriggerAt(lw: seq<string>, trigger: string, from: nat): (r: Option<nat>)
    ensures r.Some? ==> from <= r.value && r.value + 1 < |lw| && lw[r.value] == trigger
    ensures r.Some? ==> forall j :: from <= j < r.value ==> !(lw[j] == trigger && j + 1 < |lw|)
    ensures r.None? ==> forall j :: from <= j < |lw| ==> !(lw[j] == trigger && j + 1 < |lw|)
    decreases |lw| - from
  {
    if from >= |lw| then None
    else if lw[from] == trigger && from + 1 < |lw| then Some(from)
    else TriggerAt(lw, trigger, from + 1)
  }

  /** The position of the first trigger, trying the triggers in order. */
  function FirstTrigger(lw: seq<string>, triggers: seq<string>): (r: Option<nat>)
    ensures r.Some? ==> r.value + 1 < |lw|
  {
    if triggers == [] then None
    else match TriggerAt(lw, Lower(triggers[0]), 0)
      case Some(i) => Some(i)
      case None => FirstTrigger(lw, triggers[1..])
  }

  /** The words with positions `i` and `i + 1` removed. */
  function WithoutPair(words: seq<string>, i: nat): (r: seq<string>)
    requires i + 1 < |words|
    ensures |r| == |words| - 2
  {
    words[..i] + words[i + 2..]
  }

  /** `extract_app_commands`: the first trigger word (in trigger order) that
      has a word after it; that word is the app name, and the two words are
      dropped from the text, which is rejoined with single spaces. */
  function AppCommandSpec(text: string): ParseResult {
    var words := Words(text);
    match FirstTrigger(LowerAll(words), AppTriggers)
    case None => ParseResult(text, [])
    case Some(i) => ParseResult(Join(WithoutPair(words, i), " "), [OpenApp(words[i + 1])])
  }

  /** The loop that rebuilds the word list without the trigger and the app name. */
  method DropTriggerAndName(words: seq<string>, i: nat) returns (parts: seq<string>)
    requires i + 1 < |words|
    ensures parts == WithoutPair(words, i)
  {
    parts := [];
    for j := 0 to |words|
      invariant parts == if j <= i then words[..j] else if j <= i + 2 then words[..i]
                         else words[..i] + words[i + 2..j]
    {
      if j != i && j != i + 1 {
        parts := parts + [words[j]];
      }
    }
    assert words[i + 2..|words|] == words[i + 2..];
  }

  method ExtractAppCommands(text: string, actions: seq<Action>) returns (r: string, actions': seq<Action>)
    ensures r == AppCommandSpec(text).text
    ensures actions' == actions + AppCommandSpec(text).actions
  {
    var words := Words(text);
    var wordsLower := LowerAll(words);
    for t := 0 to |AppTriggers|
      invariant FirstTrigger(wordsLower, AppTriggers) == FirstTrigger(wordsLower, AppTriggers[t..])
    {
      var triggerLower := Lower(AppTriggers[t]);
      assert AppTriggers[t..][0] == AppTriggers[t] && AppTriggers[t..][1..] == AppTriggers[t + 1..];
      for i := 0 to |wordsLower|
        invariant TriggerAt(wordsLower, triggerLower, 0) == TriggerAt(wordsLower, triggerLower, i)
      {
        if wordsLower[i] == triggerLower {
          if i + 1 >= |words| {
            continue;
          }
          var appName := words[i + 1];
          actions' := actions + [OpenApp(appName)];
          var parts := DropTriggerAndName(words, i);
          r := Join(parts, " ");
          return;
        }
      }
    }
    r := text;
    actions' := actions;
  }

  // ---------------------------------------------------------------------------
  // Punctuation words

  /** What the replacement loop relies on: a non-empty command that does not
      start with a space, so that consecutive matches never overlap the space
      skipped after the previous one. */
  predicate WellFormed(m: PunctuationMapping) {
    m.command != [] && m.command[0] != ' '
  }

  /** The output for one match: the text between the previous match and this
      one, then the symbol, spaced by the mapping's rule. An opening symbol
      keeps the text as it is and is preceded by a space unless the output
      already ends with one; any other symbol is glued to the text, its
      trailing whitespace removed, and only a closing symbol with a space
      after it is followed by one, when more text comes. */
  function Emit(acc: string, before: string, m: PunctuationMapping, moreText: bool): string {
    if m.spacing.OpenNoSpace? then EmitOpening(acc + before, m.replacement)
    else EmitGlued(acc, before, m.replacement, m.spacing.CloseWithSpace? && moreText)
  }

  function EmitOpening(r: string, symbol: string): string {
    r + (if r != [] && r[|r| - 1] != ' ' then " " else "") + symbol
  }

  function EmitGlued(acc: string, before: string, symbol: string, space: bool): string {
    acc + TrimEnd(before) + symbol + (if space then " " else "")
  }

  /** Where the text resumes after a match ending at `end`: one space is skipped. */
  function AfterStart(text: string, end: nat): nat {
    if end < |text| && text[end] == ' ' then end + 1 else end
  }

  /** `replace_punctuation_command` from the search position `from`, with the
      unconsumed text starting at `lastEnd` and the output so far `acc`. */
  function ReplaceFrom(text: string, m: PunctuationMapping, from: nat, lastEnd: nat, acc: string): string
    requires WellFormed(m)
    requires from <= |text| && lastEnd <= |text|
    requires lastEnd == from || (lastEnd == from + 1 && text[from] == ' ')
    decreases |text| - from
  {
    FindFromFound(Lower(text), Lower(m.command), from);
    match FindFrom(Lower(text), Lower(m.command), from)
    case None => acc + text[lastEnd..]
    case Some(start) =>
      assert Lower(text)[start] == Lower(m.command)[0];
      var end := start + |m.command|;
      var afterStart := AfterStart(text, end);
      ReplaceFrom(text, m, end, afterStart, Emit(acc, text[lastEnd..start], m, afterStart < |text|))
  }

  /** One step of `ReplaceFrom` at a match. */
  lemma ReplaceFromStep(text: string, m: PunctuationMapping, from: nat, lastEnd: nat, acc: string, start: nat)
    requires WellFormed(m)
    requires from <= |text| && lastEnd <= |text|
    requires lastEnd == from || (lastEnd == from + 1 && text[from] == ' ')
    requires FindFrom(Lower(text), Lower(m.command), from) == Some(start)
    ensures lastEnd <= start && start + |m.command| <= |text|
    ensures ReplaceFrom(text, m, from, lastEnd, acc)
         == ReplaceFrom(text, m, start + |m.command|, AfterStart(text, start + |m.command|),
                        Emit(acc, text[lastEnd..start], m, AfterStart(text, start + |m.command|) < |text|))
  {
    FindFromSpec(Lower(text), Lower(m.command), from);
    assert Lower(text)[start] == Lower(m.command)[0];
  }

  /** `ReplaceFrom` once no match is left: the rest of the text as it is. */
  lemma ReplaceFromDone(text: string, m: PunctuationMapping, from: nat, lastEnd: nat, acc: string)
    requires WellFormed(m)
    requires from <= |text| && lastEnd <= |text|
    requires lastEnd == from || (lastEnd == from + 1 && text[from] == ' ')
    requires FindFrom(Lower(text), Lower(m.command), from) == None
    ensures ReplaceFrom(text, m, from, lastEnd, acc) == acc + text[lastEnd..]
  {
  }

  function ReplacePunctuation(text: string, m: PunctuationMapping): string
    requires WellFormed(m)
  {
    ReplaceFrom(text, m, 0, 0, [])
  }

  /** The `match mapping.spacing` block of one loop iteration. */
  method PushMatch(result: string, before: string, m: PunctuationMapping, moreText: bool) returns (r: string)
    ensures r == Emit(result, before, m, moreText)
  {
    r := result;
    match m.spacing {
      case CloseWithSpace =>
        r := r + TrimEnd(before);
        r := r + m.replacement;
        if moreText {
          r := r + " ";
        }
      case CloseNoSpace =>
        r := r + TrimEnd(before);
        r := r + m.replacement;
      case OpenNoSpace =>
        r := r + before;
        if !(r != [] && r[|r| - 1] == ' ') && r != [] {
          r := r + " ";
        }
        r := r + m.replacement;
      case Newline =>
        r := r + TrimEnd(before);
        r := r + m.replacement;
    }
  }

  /** One iteration of the loop of `replace_punctuation_command`, at the
      match found at `start`: the text before it and the symbol are pushed,
      and the search resumes after the command, one space skipped. */
  method ReplaceNext(text: string, m: PunctuationMapping, searchFrom: nat, lastEnd: nat, result: string, start: nat)
    returns (result': string, lastEnd': nat, end: nat)
    requires WellFormed(m)
    requires searchFrom <= |text| && lastEnd <= |text|
    requires lastEnd == searchFrom || (lastEnd == searchFrom + 1 && text[searchFrom] == ' ')
    requires FindFrom(Lower(text), Lower(m.command), searchFrom) == Some(start)
    ensures searchFrom < end <= |text| && lastEnd' <= |text|
    ensures lastEnd' == end || (lastEnd' == end + 1 && text[end] == ' ')
    ensures ReplaceFrom(text, m, end, lastEnd', result') == ReplaceFrom(text, m, searchFrom, lastEnd, result)
  {
    ReplaceFromStep(text, m, searchFrom, lastEnd, result, start);
    var before := text[lastEnd..start];
    end := start + |m.command|;
    var afterStart := if end < |text| && text[end] == ' ' then end + 1 else end;
    assert afterStart == AfterStart(text, end);
    result' := PushMatch(result, before, m, afterStart < |text|);
    lastEnd' := afterStart;
  }

  method ReplacePunctuationCommand(text: string, m: PunctuationMapping) returns (result: string)
    requires WellFormed(m)
    ensures result == ReplacePunctuation(text, m)
  {
    var textLower := Lower(text);
    var commandLower := Lower(m.command);
    result := [];
    var lastEnd := 0;
    var searchFrom := 0;
    var next := FindFrom(textLower, commandLower, 0);
    ghost var goal := ReplaceFrom(text, m, 0, 0, []);
    while next.Some?
      invariant searchFrom <= |text| && lastEnd <= |text|
      invariant lastEnd == searchFrom || (lastEnd == searchFrom + 1 && text[searchFrom] == ' ')
      invariant next == FindFrom(textLower, commandLower, searchFrom)
      invariant ReplaceFrom(text, m, searchFrom, lastEnd, result) == goal
      decreases |text| - searchFrom
    {
      var start := next.value;
      var end;
      result, lastEnd, end := ReplaceNext(text, m, searchFrom, lastEnd, result, start);
      searchFrom := end;
      next := FindFrom(textLower, commandLower, searchFrom);
    }
    ReplaceFromDone(text, m, searchFrom, lastEnd, result);
    result := result + text[lastEnd..];
  }

  /** Every punctuation mapping applied in table order. */
  function ReplaceAll(text: string, table: seq<PunctuationMapping>): string
    requires forall k :: 0 <= k < |table| ==> WellFormed(table[k])
    decreases |table|
  {
    if table == [] then text
    else ReplacePunctuation(ReplaceAll(text, table[..|table| - 1]), table[|table| - 1])
  }

  // ---------------------------------------------------------------------------
  // Whitespace cleanup

  /** The loop state of `clean_whitespace`. */
  datatype CleanState = CleanState(out: string, prevWasSpace: bool, prevWasNewline: bool)

  /** `String::pop`, which does nothing on an empty string. */
  function Pop(s: string): (r: string)
    ensures |r| == if s == [] then 0 else |s| - 1
  {
    if s == [] then [] else s[..|s| - 1]
  }

  /** One character of `clean_whitespace`: a space is kept only after a
      character that is neither a space nor a newline, and a newline removes
      the last character when it follows a space. */
  function CleanStep(st: CleanState, c: char): CleanState {
    if c == ' ' then
      CleanState(if !st.prevWasSpace && !st.prevWasNewline then st.out + [c] else st.out, true, false)
    else if c == '\n' then
      CleanState((if st.prevWasSpace then Pop(st.out) else st.out) + [c], false, true)
    else
      CleanState(st.out + [c], false, false)
  }

  /** The loop state after the whole of `text` was consumed. */
  function CleanRun(text: string): CleanState
    decreases |text|
  {
    if text == [] then CleanState([], false, false)
    else CleanStep(CleanRun(text[..|text| - 1]), text[|text| - 1])
  }

  function CleanSpec(text: string): string {
    Trim(CleanRun(text).out)
  }

  method CleanWhitespace(text: string) returns (r: string)
    ensures r == CleanSpec(text)
  {
    var result: string := [];
    var prevWasSpace := false;
    var prevWasNewline := false;
    for i := 0 to |text|
      invariant CleanState(result, prevWasSpace, prevWasNewline) == CleanRun(text[..i])
    {
      var c := text[i];
      assert text[..i + 1][..i] == text[..i];
      if c == ' ' {
        if !prevWasSpace && !prevWasNewline {
          result := result + [c];
        }
        prevWasSpace := true;
        prevWasNewline := false;
      } else if c == '\n' {
        if prevWasSpace {
          result := Pop(result);
        }
        result := result + [c];
        prevWasSpace := false;
        prevWasNewline := true;
      } else {
        result := result + [c];
        prevWasSpace := false;
        prevWasNewline := false;
      }
    }
    assert text[..|text|] == text;
    r := Trim(result);
  }

  // ---------------------------------------------------------------------------
  // The whole pipeline

  function ParseSpec(text: string, mode: DictationMode): ParseResult {
    TablesWellFormed();
    var ctx := ExtractTable(text, ContextualCommands(mode));
    var edit := ExtractTable(ctx.text, EditCommands);
    var app := AppCommandSpec(edit.text);
    ParseResult(CleanSpec(ReplaceAll(app.text, PunctuationCommands)), ctx.actions + edit.actions + app.actions)
  }

  /** One `for (command, action) in table` loop of `parse`. */
  method ExtractCommands(text: string, table: CommandTable, actions: seq<Action>)
    returns (text': string, actions': seq<Action>)
    ensures text' == ExtractTable(text, table).text
    ensures actions' == actions + ExtractTable(text, table).actions
  {
    text' := text;
    var found: seq<Action> := [];
    for k := 0 to |table|
      invariant ParseResult(text', found) == ExtractTable(text, table[..k])
    {
      assert table[..k + 1][..k] == table[..k];
      var (command, action) := table[k];
      var e := ExtractCommand(text', command);
      if e.found {
        found := found + [action];
      }
      text' := e.text;
    }
    assert table[..|table|] == table;
    actions' := actions + found;
  }

  /** The `for mapping in PUNCTUATION_COMMANDS` loop of `parse`. */
  method ReplaceAllCommands(text: string) returns (r: string)
    ensures r == ReplaceAll(text, PunctuationCommands)
  {
    TablesWellFormed();
    r := text;
    for k := 0 to |PunctuationCommands|
      invariant r == ReplaceAll(text, PunctuationCommands[..k])
    {
      assert PunctuationCommands[..k + 1][..k] == PunctuationCommands[..k];
      r := ReplacePunctuationCommand(r, PunctuationCommands[k]);
    }
    assert PunctuationCommands[..|PunctuationCommands|] == PunctuationCommands;
  }

  method Parse(text: string, mode: DictationMode) returns (r: ParseResult)
    ensures r == ParseSpec(text, mode)
  {
    var resultText := text;
    var actions: seq<Action> := [];
    resultText, actions := ExtractCommands(resultText, ContextualCommands(mode), actions);
    resultText, actions := ExtractCommands(resultText, EditCommands, actions);
    resultText, actions := ExtractAppCommands(resultText, actions);
    resultText := ReplaceAllCommands(resultText);
    resultText := CleanWhitespace(resultText);
    r := ParseResult(resultText, actions);
    ghost var ctx := ExtractTable(text, ContextualCommands(mode));
    ghost var edit := ExtractTable(ctx.text, EditCommands);
    assert actions == [] + ctx.actions + edit.actions + AppCommandSpec(edit.text).actions;
    assert [] + ctx.actions == ctx.actions;
  }

  // ---------------------------------------------------------------------------
  // Properties of the tables

  lemma TablesWellFormed()
    ensures forall k :: 0 <= k < |PunctuationCommands| ==> WellFormed(PunctuationCommands[k])
  {
  }
}
