/**
  The history that a model is given after a restart (`prepare_conversation_history`): the old one when
  all its references still work, else a rebuilt one that keeps what the user said.
*/
module ConversationHistory {
  import opened Wrappers
  import opened NavigationTokens
  import R = ReportTaskRefs
  import A = AccountActivityRefs

  datatype Role = User | Assistant | Tool | System

  /** A message, by its text: the content of a user message, the JSON of any other. */
  datatype Message = Message(role: Role, text: string)

  /** The references in process: those of the report and those of the account tools. */
  datatype References = References(report: R.Registry, account: A.Registry)

  /** `usable`: the token names a reference or cursor of the session's current scope. */
  predicate Usable(refs: References, sessionId: string, token: string) {
    if token in refs.account.cursors then
      var c := refs.account.cursors[token];
      sessionId in refs.account.scopes && c.sessionId == sessionId && c.generation == refs.account.scopes[sessionId].generation
    else if token in refs.account.records then
      var r := refs.account.records[token];
      sessionId in refs.account.scopes && r.key.sessionId == sessionId
      && r.key.generation == refs.account.scopes[sessionId].generation
    else
      sessionId in refs.report.scopes &&
      var scope := refs.report.scopes[sessionId];
      if token in refs.report.commentCursors then refs.report.commentCursors[token].scope == scope
      else if token in refs.report.searchCursors then refs.report.searchCursors[token].scope == scope
      else token in refs.report.records && refs.report.records[token].scope == scope
  }

  /** For a report reference, usable means that the registry resolves it. */
  lemma UsableMeansResolves(refs: References, sessionId: string, token: string)
    requires R.Valid(refs.report) && token in refs.report.records
    requires token !in refs.report.commentCursors && token !in refs.report.searchCursors
    requires token !in refs.account.cursors && token !in refs.account.records
    ensures Usable(refs, sessionId, token) <==> R.Resolve(refs.report, sessionId, token, None).Ok?
  {
    R.ResolvedIsCurrent(refs.report, sessionId, token, None);
  }

  // ---- by the tables alone ----

  /** Some table of the two registries has the token under the scope that the session is bound to now. */
  ghost predicate Current(refs: References, sessionId: string, token: string) {
    || (sessionId in refs.report.scopes
          && var scope := refs.report.scopes[sessionId];
          || (token in refs.report.records && refs.report.records[token].scope == scope)
          || (token in refs.report.searchCursors && refs.report.searchCursors[token].scope == scope)
          || (token in refs.report.commentCursors && refs.report.commentCursors[token].scope == scope))
    || (sessionId in refs.account.scopes
          && var generation := refs.account.scopes[sessionId].generation;
          || (token in refs.account.records && refs.account.records[token].key.sessionId == sessionId
                && refs.account.records[token].key.generation == generation)
          || (token in refs.account.cursors && refs.account.cursors[token].sessionId == sessionId
                && refs.account.cursors[token].generation == generation))
  }

  /** Only one table of the two registries has the token, as always with tokens that the registries allocate. */
  ghost predicate InOneTable(refs: References, token: string) {
    var tables := [token in refs.report.records, token in refs.report.searchCursors, token in refs.report.commentCursors,
                   token in refs.account.records, token in refs.account.cursors];
    forall i, j | 0 <= i < j < 5 :: !(tables[i] && tables[j])
  }

  /** A token works only if a table has it under the current scope; for a token of one table this is all it takes. */
  lemma UsableIffCurrent(refs: References, sessionId: string, token: string)
    ensures Usable(refs, sessionId, token) ==> Current(refs, sessionId, token)
    ensures InOneTable(refs, token) ==> (Usable(refs, sessionId, token) <==> Current(refs, sessionId, token))
  {
    if InOneTable(refs, token) {
      var tables := [token in refs.report.records, token in refs.report.searchCursors, token in refs.report.commentCursors,
                     token in refs.account.records, token in refs.account.cursors];
      assert forall i, j | 0 <= i < j < 5 :: !(tables[i] && tables[j]);
      assert !(tables[0] && tables[1]) && !(tables[0] && tables[2]) && !(tables[1] && tables[2]);
      assert !(tables[0] && tables[3]) && !(tables[1] && tables[3]) && !(tables[2] && tables[3]);
      assert !(tables[0] && tables[4]) && !(tables[1] && tables[4]) && !(tables[2] && tables[4]) && !(tables[3] && tables[4]);
    }
  }

  /** An assistant or tool message of the history mentions the token. */
  ghost predicate Mentions(history: seq<Message>, word: WordClass, token: string) {
    exists m <- history :: (m.role == Assistant || m.role == Tool) && token in FindAll(m.text, word)
  }

  /** The prefixes of both registries, and of their cursors, are those that are looked for in texts. */
  lemma PrefixesAreKnown(kind: R.Kind, accountKind: A.Kind)
    ensures R.Prefix(kind) in PREFIXES && "r" in PREFIXES && "q" in PREFIXES
    ensures A.Prefix(accountKind) in PREFIXES && "page" in PREFIXES
  {
    assert PREFIXES[0] == "g" && PREFIXES[1] == "f" && PREFIXES[2] == "p" && PREFIXES[3] == "c" && PREFIXES[4] == "e";
    assert PREFIXES[5] == "r" && PREFIXES[6] == "q" && PREFIXES[7] == "account" && PREFIXES[8] == "activity";
    assert PREFIXES[9] == "target" && PREFIXES[10] == "post" && PREFIXES[11] == "page" && PREFIXES[12] == "report";
  }

  /** The fixed texts around the report that is read again. */
  datatype Wording = Wording(notice: string, call: string, closing: string)

  ghost predicate AllUsable(refs: References, sessionId: string, tokens: seq<string>) {
    forall t <- tokens :: Usable(refs, sessionId, t)
  }

  /** Every reference in every assistant and tool message works. */
  ghost predicate Fresh(refs: References, sessionId: string, word: WordClass, history: seq<Message>) {
    forall m <- history | m.role == Assistant || m.role == Tool :: AllUsable(refs, sessionId, FindAll(m.text, word))
  }

  function UserTexts(history: seq<Message>): seq<string> {
    if history == [] then []
    else
      var last := history[|history| - 1];
      UserTexts(history[..|history| - 1]) + (if last.role == User then [last.text] else [])
  }

  function SubAll(texts: seq<string>, word: WordClass): seq<string> {
    if texts == [] then [] else SubAll(texts[..|texts| - 1], word) + [Sub(texts[|texts| - 1], word)]
  }

  /** The messages that replace the old ones: each user text, and a notice instead of each old answer. */
  function Kept(texts: seq<string>, wording: Wording, word: WordClass): seq<Message> {
    if texts == [] then []
    else
      var said := Message(User, Sub(texts[|texts| - 1], word));
      Kept(texts[..|texts| - 1], wording, word) + [said, Message(Assistant, wording.notice)]
  }

  /** The rebuilt history: the last notice becomes the call that reads the report again. */
  function Rebuilt(history: seq<Message>, wording: Wording, word: WordClass, report: string): seq<Message> {
    var kept := Kept(UserTexts(history), wording, word);
    (if kept == [] then [] else kept[..|kept| - 1])
      + [Message(Assistant, (if kept == [] then "" else wording.notice) + wording.call), Message(Tool, report),
         Message(Assistant, wording.closing)]
  }

  lemma FreshByTables(refs: References, sessionId: string, word: WordClass, history: seq<Message>)
    ensures Fresh(refs, sessionId, word, history) ==> forall t | Mentions(history, word, t) :: Current(refs, sessionId, t)
    ensures (forall t | Mentions(history, word, t) :: Current(refs, sessionId, t) && InOneTable(refs, t)) ==>
      Fresh(refs, sessionId, word, history)
  {
    hide FindAll, Usable, Current, InOneTable;
    if Fresh(refs, sessionId, word, history) {
      forall t | Mentions(history, word, t) ensures Current(refs, sessionId, t) {
        var m :| m in history && (m.role == Assistant || m.role == Tool) && t in FindAll(m.text, word);
        assert AllUsable(refs, sessionId, FindAll(m.text, word));
        UsableIffCurrent(refs, sessionId, t);
      }
    }
    if forall t | Mentions(history, word, t) :: Current(refs, sessionId, t) && InOneTable(refs, t) {
      forall m, t | m in history && (m.role == Assistant || m.role == Tool) && t in FindAll(m.text, word)
        ensures Usable(refs, sessionId, t)
      {
        assert Mentions(history, word, t);
        UsableIffCurrent(refs, sessionId, t);
      }
    }
  }

  /** The scan for stale references. */
  method IsStale(refs: References, sessionId: string, word: WordClass, history: seq<Message>) returns (stale: bool)
    ensures stale <==> !Fresh(refs, sessionId, word, history)
  {
    hide Usable, FindAll;
    for i := 0 to |history|
      invariant Fresh(refs, sessionId, word, history[..i])
    {
      var m := history[i];
      assert m in history && history[..i + 1] == history[..i] + [m];
      if m.role == Assistant || m.role == Tool {
        var tokens := FindAll(m.text, word);
        for j := 0 to |tokens|
          invariant AllUsable(refs, sessionId, tokens[..j])
        {
          assert tokens[j] in tokens && tokens[..j + 1] == tokens[..j] + [tokens[j]];
          if !Usable(refs, sessionId, tokens[j]) {
            assert !AllUsable(refs, sessionId, FindAll(m.text, word));
            return true;
          }
        }
        assert tokens[..|tokens|] == tokens;
      }
    }
    assert history[..|history|] == history;
    return false;
  }

  /** `prepare_conversation_history`, after aliases were restored; `report` is what `read_report` returns now. */
  method Prepare(refs: References, sessionId: string, word: WordClass, history: seq<Message>, wording: Wording, report: string)
    returns (prepared: seq<Message>)
    ensures Fresh(refs, sessionId, word, history) ==> prepared == history
    ensures !Fresh(refs, sessionId, word, history) ==> prepared == Rebuilt(history, wording, word, report)
    ensures (exists t :: Mentions(history, word, t) && !Current(refs, sessionId, t)) ==>
      prepared == Rebuilt(history, wording, word, report)
    ensures (forall t | Mentions(history, word, t) :: Current(refs, sessionId, t) && InOneTable(refs, t)) ==> prepared == history
    ensures Plain(wording, word) && (forall t <- FindAll(report, word) :: Current(refs, sessionId, t)) ==>
      forall t | Mentions(prepared, word, t) :: Current(refs, sessionId, t)
  {
    FreshByTables(refs, sessionId, word, history);
    if Plain(wording, word) {
      RebuiltMentionsReport(history, wording, word, report);
    }
    hide Fresh, Sub, Mentions, Current, InOneTable;
    var stale := IsStale(refs, sessionId, word, history);
    if !stale {
      return history;
    }
    var refreshed: seq<Message> := [];
    for i := 0 to |history|
      invariant refreshed == Kept(UserTexts(history[..i]), wording, word)
    {
      assert history[..i + 1][..i] == history[..i];
      if history[i].role == User {
        refreshed := refreshed + [Message(User, Sub(history[i].text, word)), Message(Assistant, wording.notice)];
        assert UserTexts(history[..i + 1]) == UserTexts(history[..i]) + [history[i].text];
        assert (UserTexts(history[..i]) + [history[i].text])[..|UserTexts(history[..i])|] == UserTexts(history[..i]);
      } else {
        assert UserTexts(history[..i + 1]) == UserTexts(history[..i]);
      }
    }
    assert history[..|history|] == history;
    var notice := "";
    if refreshed != [] {
      notice := refreshed[|refreshed| - 1].text;
      LastIsNotice(UserTexts(history), wording, word);
      refreshed := refreshed[..|refreshed| - 1];
    }
    prepared := refreshed + [Message(Assistant, notice + wording.call), Message(Tool, report), Message(Assistant, wording.closing)];
  }

  lemma LastIsNotice(texts: seq<string>, wording: Wording, word: WordClass)
    requires texts != []
    ensures
      var kept := Kept(texts, wording, word);
      kept != [] && kept[|kept| - 1] == Message(Assistant, wording.notice)
  {
  }

  // ---- what the rebuilt history keeps and mentions ----

  lemma {:induction false} UserTextsConcat(a: seq<Message>, b: seq<Message>)
    ensures UserTexts(a + b) == UserTexts(a) + UserTexts(b)
    decreases |b|
  {
    if b == [] {
      assert a + b == a;
    } else {
      UserTextsConcat(a, b[..|b| - 1]);
      assert (a + b)[..|a + b| - 1] == a + b[..|b| - 1];
    }
  }

  lemma UserTextsOfPair(x: string, wording: Wording)
    ensures UserTexts([Message(User, x), Message(Assistant, wording.notice)]) == [x]
    ensures UserTexts([Message(User, x)]) == [x]
  {
    var s := [Message(User, x), Message(Assistant, wording.notice)];
    assert s[..1] == [Message(User, x)] && [Message(User, x)][..0] == [];
    assert UserTexts([Message(User, x)]) == UserTexts([]) + [x];
    assert UserTexts(s) == UserTexts(s[..1]) + [];
  }

  lemma {:induction false} KeptTexts(texts: seq<string>, wording: Wording, word: WordClass)
    ensures UserTexts(Kept(texts, wording, word)) == SubAll(texts, word)
    ensures texts != [] ==>
      UserTexts(Kept(texts, wording, word)[..|Kept(texts, wording, word)| - 1]) == SubAll(texts, word)
    decreases |texts|
  {
    hide Sub, UserTexts;
    if texts == [] {
      NoTexts();
    } else {
      var init, x := texts[..|texts| - 1], Sub(texts[|texts| - 1], word);
      var before := Kept(init, wording, word);
      KeptTexts(init, wording, word);
      UserTextsOfPair(x, wording);
      UserTextsConcat(before, [Message(User, x), Message(Assistant, wording.notice)]);
      UserTextsConcat(before, [Message(User, x)]);
      var all := Kept(texts, wording, word);
      assert all[..|all| - 1] == before + [Message(User, x)];
    }
  }

  lemma NoTexts()
    ensures UserTexts([]) == []
  {
  }

  /** A rebuilt history has every user message, in order, with nothing changed but the replaced references. */
  lemma UsersAreKept(history: seq<Message>, wording: Wording, word: WordClass, report: string)
    ensures UserTexts(Rebuilt(history, wording, word, report)) == SubAll(UserTexts(history), word)
  {
    hide Sub, UserTexts;
    var texts := UserTexts(history);
    var kept := Kept(texts, wording, word);
    var front := if kept == [] then [] else kept[..|kept| - 1];
    var end := [Message(Assistant, (if kept == [] then "" else wording.notice) + wording.call), Message(Tool, report),
                Message(Assistant, wording.closing)];
    KeptTexts(texts, wording, word);
    if texts != [] {
      LastIsNotice(texts, wording, word);
    } else {
      NoTexts();
    }
    UserTextsConcat(front, end);
    NoUsers(end);
  }

  lemma {:induction false} NoUsers(messages: seq<Message>)
    requires forall m <- messages :: m.role != User
    ensures UserTexts(messages) == []
    decreases |messages|
  {
    if messages != [] {
      assert messages[|messages| - 1] in messages;
      NoUsers(messages[..|messages| - 1]);
    }
  }

  /** The fixed texts hold no reference. */
  ghost predicate Plain(wording: Wording, word: WordClass) {
    && FindAll(wording.notice, word) == [] && FindAll(wording.notice + wording.call, word) == []
    && FindAll(wording.call, word) == [] && FindAll(wording.closing, word) == []
  }

  /** The assistant and tool messages of a rebuilt history mention what the report mentions, and nothing of the old history. */
  lemma RebuiltMentionsReport(history: seq<Message>, wording: Wording, word: WordClass, report: string)
    requires Plain(wording, word)
    ensures forall t :: Mentions(Rebuilt(history, wording, word, report), word, t) <==> t in FindAll(report, word)
  {
    hide Sub, FindAll, UserTexts, Kept;
    var kept := Kept(UserTexts(history), wording, word);
    var front := if kept == [] then [] else kept[..|kept| - 1];
    var tail := [Message(Assistant, (if kept == [] then "" else wording.notice) + wording.call), Message(Tool, report),
                 Message(Assistant, wording.closing)];
    var rebuilt := Rebuilt(history, wording, word, report);
    KeptMessages(UserTexts(history), wording, word);
    assert "" + wording.call == wording.call;
    assert rebuilt == front + tail && rebuilt[|rebuilt| - 2] == Message(Tool, report);
    forall t ensures Mentions(rebuilt, word, t) <==> t in FindAll(report, word) {
      if Mentions(rebuilt, word, t) {
        var m :| m in rebuilt && (m.role == Assistant || m.role == Tool) && t in FindAll(m.text, word);
        assert m in kept ==> m == Message(Assistant, wording.notice);
        assert m in front + tail ==> m in front || m in tail;
      }
    }
  }

  lemma {:induction false} KeptAt(texts: seq<string>, wording: Wording, word: WordClass)
    ensures
      var kept := Kept(texts, wording, word);
      && |kept| == 2 * |texts|
      && forall i | 0 <= i < |texts| ::
           kept[2 * i] == Message(User, Sub(texts[i], word)) && kept[2 * i + 1] == Message(Assistant, wording.notice)
    decreases |texts|
  {
    hide Sub;
    if texts != [] {
      KeptAt(texts[..|texts| - 1], wording, word);
    }
  }

  /**
    A rebuilt history alternates what the user said with the notice, and ends with the call that reads
    the report again, what it returned, and the closing text.
  */
  lemma RebuiltAt(history: seq<Message>, wording: Wording, word: WordClass, report: string)
    ensures
      var rebuilt, texts := Rebuilt(history, wording, word, report), UserTexts(history);
      var n := |rebuilt|;
      && n == (if texts == [] then 3 else 2 * |texts| + 2)
      && rebuilt[n - 3] == Message(Assistant, (if texts == [] then "" else wording.notice) + wording.call)
      && rebuilt[n - 2] == Message(Tool, report) && rebuilt[n - 1] == Message(Assistant, wording.closing)
      && (forall i | 0 <= i < |texts| :: rebuilt[2 * i] == Message(User, Sub(texts[i], word)))
      && (forall i | 0 <= i < |texts| - 1 :: rebuilt[2 * i + 1] == Message(Assistant, wording.notice))
  {
    hide Sub, UserTexts, Kept;
    KeptAt(UserTexts(history), wording, word);
  }

  /** Every reference anywhere in the history works. */
  ghost predicate MentionsUsable(refs: References, sessionId: string, word: WordClass, history: seq<Message>) {
    forall m <- history :: AllUsable(refs, sessionId, FindAll(m.text, word))
  }

  /** Every reference that the replacement uncovers in one of the texts works. */
  ghost predicate UncoveredUsable(refs: References, sessionId: string, word: WordClass, texts: seq<string>) {
    forall t <- texts :: AllUsable(refs, sessionId, Uncovered(t, word))
  }

  lemma {:induction false} KeptMessages(texts: seq<string>, wording: Wording, word: WordClass)
    ensures forall m <- Kept(texts, wording, word) ::
      m == Message(Assistant, wording.notice) || exists t <- texts :: m == Message(User, Sub(t, word))
    ensures forall t <- texts :: Message(User, Sub(t, word)) in Kept(texts, wording, word)
    ensures texts != [] ==> var kept := Kept(texts, wording, word);
      forall t <- texts :: Message(User, Sub(t, word)) in kept[..|kept| - 1]
    decreases |texts|
  {
    hide Sub;
    if texts != [] {
      var init, last := texts[..|texts| - 1], texts[|texts| - 1];
      KeptMessages(init, wording, word);
      assert texts == init + [last];
      var before, kept := Kept(init, wording, word), Kept(texts, wording, word);
      assert kept[..|kept| - 1] == before + [Message(User, Sub(last, word))];
      forall m | m in kept
        ensures m == Message(Assistant, wording.notice) || exists t <- texts :: m == Message(User, Sub(t, word))
      {
        if m in before {
          if m != Message(Assistant, wording.notice) {
            var t :| t in init && m == Message(User, Sub(t, word));
            assert t in texts;
          }
        } else {
          assert last in texts;
        }
      }
    }
  }

  /**
    After a rebuild, given the references as they are then and a report that mentions only working
    ones, the whole history mentions only working references exactly when every reference that the
    replacement uncovers in a user message works.
  */
  lemma RebuiltMentionsUsableIff(refs: References, sessionId: string, word: WordClass, history: seq<Message>,
                                 wording: Wording, report: string)
    requires !word('[') && Plain(wording, word) && AllUsable(refs, sessionId, FindAll(report, word))
    ensures MentionsUsable(refs, sessionId, word, Rebuilt(history, wording, word, report))
       <==> UncoveredUsable(refs, sessionId, word, UserTexts(history))
  {
    hide MentionsUsable, UncoveredUsable;
    var rebuilt := Rebuilt(history, wording, word, report);
    if MentionsUsable(refs, sessionId, word, rebuilt) {
      UsableMeansUncovered(refs, sessionId, word, history, wording, report);
    }
    if UncoveredUsable(refs, sessionId, word, UserTexts(history)) {
      UncoveredMeansUsable(refs, sessionId, word, history, wording, report);
    }
  }

  lemma UsableMeansUncovered(refs: References, sessionId: string, word: WordClass, history: seq<Message>,
                             wording: Wording, report: string)
    requires !word('[')
    requires MentionsUsable(refs, sessionId, word, Rebuilt(history, wording, word, report))
    ensures UncoveredUsable(refs, sessionId, word, UserTexts(history))
  {
    hide Sub, FindAll, AllUsable, Uncovered, UserTexts, Kept;
    var texts := UserTexts(history);
    var rebuilt := Rebuilt(history, wording, word, report);
    KeptMessages(texts, wording, word);
    forall t | t in texts ensures AllUsable(refs, sessionId, Uncovered(t, word)) {
      SubLeavesUncovered(t, word);
      assert Message(User, Sub(t, word)) in rebuilt;
    }
  }

  lemma UncoveredMeansUsable(refs: References, sessionId: string, word: WordClass, history: seq<Message>,
                             wording: Wording, report: string)
    requires !word('[') && Plain(wording, word) && AllUsable(refs, sessionId, FindAll(report, word))
    requires UncoveredUsable(refs, sessionId, word, UserTexts(history))
    ensures MentionsUsable(refs, sessionId, word, Rebuilt(history, wording, word, report))
  {
    hide Sub, FindAll, Usable, Uncovered, UserTexts, Kept;
    var texts := UserTexts(history);
    var kept := Kept(texts, wording, word);
    KeptMessages(texts, wording, word);
    assert "" + wording.call == wording.call;
    forall m | m in Rebuilt(history, wording, word, report) ensures AllUsable(refs, sessionId, FindAll(m.text, word)) {
      if m in kept && m != Message(Assistant, wording.notice) {
        var t :| t in texts && m == Message(User, Sub(t, word));
        SubLeavesUncovered(t, word);
      }
    }
  }

  /** A user who pasted two references without a gap gets one of them back, whether it works or not. */
  lemma RebuiltMayMentionStale(refs: References, sessionId: string, word: WordClass, wording: Wording, report: string)
    requires word('p') && !word('[') && Plain(wording, word) && AllUsable(refs, sessionId, FindAll(report, word))
    requires !Usable(refs, sessionId, JOINED[..9])
    ensures !MentionsUsable(refs, sessionId, word, Rebuilt([Message(User, JOINED)], wording, word, report))
  {
    hide Usable, Rebuilt;
    var history := [Message(User, JOINED)];
    ReplacementUncovers(word);
    SubLeavesUncovered(JOINED, word);
    RebuiltMentionsUsableIff(refs, sessionId, word, history, wording, report);
    assert history[..0] == [];
    assert UserTexts(history) == [JOINED];
    assert JOINED[..9] in Uncovered(JOINED, word) && JOINED in UserTexts(history);
  }
}
