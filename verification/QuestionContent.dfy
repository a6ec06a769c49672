/** From a persisted question to what the operator reads (app/bot/delivery.py, `_build_content`). */
module QuestionContents {
  import opened Wrappers
  import opened ReplyChains
  import opened Pipeline
  import opened PipelineSafety
  import opened PipelineOutcomes
  import opened Notifications
  import opened NotificationRendering
  import R = NotificationReading

  function ItemOf(row: ChainRow): ChainItem {
    ChainItem(row.position, row.authorName, row.text, row.translation.translated, row.isTarget)
  }

  function ItemsOf(rows: seq<ChainRow>): (items: seq<ChainItem>)
    ensures |items| == |rows|
    ensures forall p :: 0 <= p < |rows| ==> items[p] == ItemOf(rows[p])
  {
    seq(|rows|, p requires 0 <= p < |rows| => ItemOf(rows[p]))
  }

  /** `titles` are the chats' titles; category and confidence are those of the classification. */
  function ContentOf(t: Tables, q: nat, titles: map<int, string>, category: string, confidence: Option<nat>): Content
    requires q < |t.questions|
  {
    var question := t.questions[q];
    Content(
      if question.chat.Some? && question.chat.value in titles then titles[question.chat.value] else "Удалённый чат",
      question.topicTitle,
      category,
      confidence,
      ByPosition(ItemsOf(RowsOf(t.chain, q))))
  }

  // ----- The order of the rows -----

  ghost predicate AreNumbered(rows: seq<ChainRow>) {
    forall p :: 0 <= p < |rows| ==> rows[p].position == p
  }

  ghost predicate Ascend(items: seq<ChainItem>) {
    forall i, j :: 0 <= i < j < |items| ==> items[i].position < items[j].position
  }

  lemma {:induction false} AscendingStays(items: seq<ChainItem>)
    requires Ascend(items)
    ensures ByPosition(items) == items
  {
    if items != [] {
      AscendingStays(items[1..]);
      assert items == [items[0]] + items[1..];
    }
  }

  lemma NumberedAscend(rows: seq<ChainRow>)
    requires AreNumbered(rows)
    ensures Ascend(ItemsOf(rows))
  {
  }

  // ----- What is read -----

  /** The operator reads the row's own text, author and translation under its number, marked if it is the target. */
  ghost predicate ReadsRow(seen: R.SeenItem, p: nat, row: ChainRow) {
    && seen.number == p + 1
    && seen.isTarget == row.isTarget
    && seen.author == (if row.authorName.Some? && row.authorName.value != "" then row.authorName.value else "Неизвестный автор")
    && seen.original == row.text
    && (var t := row.translation.translated;
        if t.Some? && t.value != row.text then seen.translation == t && !seen.isUntranslated
        else seen.translation == None && seen.isUntranslated)
  }

  lemma RowIsExpected(row: ChainRow, p: nat)
    requires row.position == p
    ensures ReadsRow(R.Expected(ItemOf(row)), p, row)
  {
  }

  lemma OrderIsKept(rows: seq<ChainRow>)
    requires AreNumbered(rows)
    ensures ByPosition(ItemsOf(rows)) == ItemsOf(rows)
  {
    NumberedAscend(rows);
    AscendingStays(ItemsOf(rows));
  }

  lemma RowsAreRead(t: Tables, q: nat, titles: map<int, string>, category: string, confidence: Option<nat>)
    requires q < |t.questions| && AreNumbered(RowsOf(t.chain, q))
    ensures var seen, rows := R.Recovered(ContentOf(t, q, titles, category, confidence)), RowsOf(t.chain, q);
            |seen.items| == |rows| && forall p: nat :: p < |rows| ==> ReadsRow(seen.items[p], p, rows[p])
  {
    var rows, c := RowsOf(t.chain, q), ContentOf(t, q, titles, category, confidence);
    OrderIsKept(rows);
    R.PartsRecoverTheChain(c);
    forall p: nat | p < |rows| ensures ReadsRow(R.Recovered(c).items[p], p, rows[p]) {
      RowIsExpected(rows[p], p);
    }
  }

  /**
   * In every run, whatever is read of a question's notification is its chain: one to ten messages,
   * numbered from one, each with its own text, author and translation, the last one and only it
   * marked as the target, which is the message the question was detected in.
   */
  lemma {:induction false} OperatorReadsTheQuestion(
    h: seq<Event>, q: nat, titles: map<int, string>, category: string, confidence: Option<nat>
  )
    requires HonestRun(h) && q < |Pipeline.After(h).tables.questions|
    ensures var t := Pipeline.After(h).tables;
            var seen, rows := R.Recovered(ContentOf(t, q, titles, category, confidence)), RowsOf(t.chain, q);
            && 1 <= |seen.items| == |rows| <= 10
            && (forall p: nat :: p < |rows| ==> ReadsRow(seen.items[p], p, rows[p]))
            && (forall p :: 0 <= p < |rows| ==> (seen.items[p].isTarget <==> p == |rows| - 1))
            && rows[|rows| - 1].messageId == t.questions[q].message.key.messageId
  {
    var t := Pipeline.After(h).tables;
    TablesAlwaysSound(h);
    assert CompleteChain(RowsOf(t.chain, q), t.questions[q].message.key);
    RowsAreRead(t, q, titles, category, confidence);
  }

  // ----- From the loaded chain to the operator -----

  /** The rows of the new question are those that were added. */
  lemma AddedRows(t: Tables, u: Tables, items: seq<Item>, at: seq<nat>, translations: seq<Translation>)
    requires RowsSound(t) && AreAvailable(items, at) && ChainIsAdded(t, u, items, at, translations)
    ensures RowsOf(u.chain, |t.questions|) == u.chain[|t.chain|..]
  {
    var id, added := |t.questions|, u.chain[|t.chain|..];
    assert u.chain == t.chain + added;
    forall p: nat | p < |added| ensures added[p].question == id {
      assert Shows(u.chain[|t.chain| + p], id, p, items[at[p]], TranslationFor(translations, p));
    }
    RowsOfAppended(t.chain, added, id, id);
    NoRowsYet(t.chain, id);
    assert [] + added == added;
  }

  lemma AddedRowShows(t: Tables, u: Tables, items: seq<Item>, at: seq<nat>, translations: seq<Translation>, p: nat)
    requires RowsSound(t) && AreAvailable(items, at) && ChainIsAdded(t, u, items, at, translations) && p < |at|
    ensures |RowsOf(u.chain, |t.questions|)| == |at|
    ensures Shows(RowsOf(u.chain, |t.questions|)[p], |t.questions|, p, items[at[p]], TranslationFor(translations, p))
  {
    AddedRows(t, u, items, at, translations);
    assert u.chain[|t.chain|..][p] == u.chain[|t.chain| + p];
  }

  /** What the operator reads of one item of the chain: its number among those available, its text and its own translation. */
  ghost predicate ReadsItem(seen: R.SeenItem, p: nat, item: Item, translation: Translation) {
    && seen.number == p + 1
    && seen.isTarget == item.isTarget
    && seen.author == (if item.authorName.Some? && item.authorName.value != "" then item.authorName.value else "Неизвестный автор")
    && item.text == Some(seen.original)
    && seen.translation == (if translation.translated == item.text then None else translation.translated)
  }

  lemma RowReadsItem(seen: R.SeenItem, q: nat, p: nat, row: ChainRow, item: Item, translation: Translation)
    requires ReadsRow(seen, p, row) && Shows(row, q, p, item, translation)
    ensures ReadsItem(seen, p, item, translation)
  {
  }

  /**
   * Once a message is persisted, the operator reads every available message of its chain, in order,
   * with its own text and its own translation, which is shown where it exists and differs.
   */
  lemma OperatorReadsTheChain(
    t: Tables, u: Tables, key: MessageKey, c: ReplyChain, translations: seq<Translation>, at: seq<nat>,
    titles: map<int, string>, category: string, confidence: Option<nat>
  )
    requires key in t.jobs && RowsSound(t) && AreAvailable(c.items, at) && IsPersisted(t, u, key, c, translations, at)
    ensures var seen := R.Recovered(ContentOf(u, |t.questions|, titles, category, confidence));
            && |seen.items| == |at|
            && forall p: nat :: p < |at| ==> ReadsItem(seen.items[p], p, c.items[at[p]], TranslationFor(translations, p))
  {
    var id, rows := |t.questions|, RowsOf(u.chain, |t.questions|);
    var seen := R.Recovered(ContentOf(u, id, titles, category, confidence));
    AddedRows(t, u, c.items, at, translations);
    forall p: nat | p < |rows| ensures rows[p].position == p {
      AddedRowShows(t, u, c.items, at, translations, p);
    }
    RowsAreRead(u, id, titles, category, confidence);
    forall p: nat | p < |at| ensures ReadsItem(seen.items[p], p, c.items[at[p]], TranslationFor(translations, p)) {
      AddedRowShows(t, u, c.items, at, translations, p);
      RowReadsItem(seen.items[p], id, p, rows[p], c.items[at[p]], TranslationFor(translations, p));
    }
  }
}
