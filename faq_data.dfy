/**
 * The FAQ corpus both AI matchers read: categories, each with its questions, and
 * the numbering 1..N both of them give the questions in category-then-question
 * order. The corpus itself is a bundled JSON file; here it is a parameter.
 */
module FaqData {
  import opened Wrappers

  datatype FaqItem = FaqItem(question: string, answer: string)

  datatype Category = Category(name: string, questions: seq<FaqItem>)

  /** One FAQ with its category's name, in corpus order. */
  datatype Entry = Entry(question: string, answer: string, category: string)

  /** A prompt line's data: the FAQ's number and the FAQ. */
  datatype NumberedFaq = NumberedFaq(num: nat, question: string, answer: string, category: string)

  function CategoryEntries(c: Category): (r: seq<Entry>)
    ensures |r| == |c.questions|
    ensures forall k :: 0 <= k < |r| ==> r[k] == Entry(c.questions[k].question, c.questions[k].answer, c.name)
  {
    seq(|c.questions|, k requires 0 <= k < |c.questions| => Entry(c.questions[k].question, c.questions[k].answer, c.name))
  }

  /** Every FAQ of the corpus, category by category, each category's questions in order. */
  function Entries(cats: seq<Category>): seq<Entry>
  {
    if cats == [] then [] else Entries(cats[..|cats| - 1]) + CategoryEntries(cats[|cats| - 1])
  }

  /** The number of questions, summed over the categories. */
  function TotalQuestions(cats: seq<Category>): nat
  {
    if cats == [] then 0 else TotalQuestions(cats[..|cats| - 1]) + |cats[|cats| - 1].questions|
  }

  lemma {:induction false} EntriesCount(cats: seq<Category>)
    ensures |Entries(cats)| == TotalQuestions(cats)
  {
    if cats != [] {
      EntriesCount(cats[..|cats| - 1]);
    }
  }

  /** Numbers a list of entries from 1. */
  function NumberFrom(es: seq<Entry>): (r: seq<NumberedFaq>)
    ensures |r| == |es|
    ensures forall k :: 0 <= k < |r| ==> r[k] == NumberedFaq(k + 1, es[k].question, es[k].answer, es[k].category)
  {
    seq(|es|, k requires 0 <= k < |es| => NumberedFaq(k + 1, es[k].question, es[k].answer, es[k].category))
  }

  /** The list both matchers put in their prompts. */
  function Numbered(cats: seq<Category>): seq<NumberedFaq> {
    NumberFrom(Entries(cats))
  }

  lemma NumberFromSnoc(es: seq<Entry>, e: Entry)
    ensures NumberFrom(es + [e]) == NumberFrom(es) + [NumberedFaq(|es| + 1, e.question, e.answer, e.category)]
  {
  }

  /**
   * The numbering loop of both matchers: an outer loop over categories and an
   * inner one over their questions, a running counter starting at 1.
   */
  method NumberFaqs(cats: seq<Category>) returns (list: seq<NumberedFaq>)
    ensures list == Numbered(cats)
    ensures |list| == TotalQuestions(cats)
    ensures forall k :: 0 <= k < |list| ==> list[k].num == k + 1
  {
    list := [];
    var num := 1;
    var i := 0;
    while i < |cats|
      invariant 0 <= i <= |cats|
      invariant list == NumberFrom(Entries(cats[..i]))
      invariant num == |list| + 1
    {
      var c := cats[i];
      var j := 0;
      while j < |c.questions|
        invariant 0 <= j <= |c.questions|
        invariant list == NumberFrom(Entries(cats[..i]) + CategoryEntries(c)[..j])
        invariant num == |list| + 1
      {
        var qa := c.questions[j];
        NumberFromSnoc(Entries(cats[..i]) + CategoryEntries(c)[..j], Entry(qa.question, qa.answer, c.name));
        assert CategoryEntries(c)[..j + 1] == CategoryEntries(c)[..j] + [Entry(qa.question, qa.answer, c.name)];
        list := list + [NumberedFaq(num, qa.question, qa.answer, c.name)];
        num := num + 1;
        j := j + 1;
      }
      assert cats[..i + 1][..i] == cats[..i];
      assert CategoryEntries(c)[..j] == CategoryEntries(c);
      i := i + 1;
    }
    assert cats[..i] == cats;
    EntriesCount(cats);
  }

  /** The FAQ numbered `n`, if there is one. */
  function FaqNumbered(cats: seq<Category>, n: int): (r: Option<Entry>)
    ensures r.Some? <==> 1 <= n <= |Entries(cats)|
    ensures r.Some? ==> r.value == Entries(cats)[n - 1]
  {
    var es := Entries(cats);
    if 1 <= n <= |es| then Some(es[n - 1]) else None
  }

  /**
   * The lookup in the streaming matcher: walks the categories and questions with
   * a counter, stopping at the first one whose number is `n`.
   */
  method FindFaq(cats: seq<Category>, n: int) returns (found: Option<Entry>)
    ensures found == FaqNumbered(cats, n)
  {
    found := None;
    var num := 1;
    var i := 0;
    while i < |cats|
      invariant 0 <= i <= |cats|
      invariant num == |Entries(cats[..i])| + 1
      invariant found.None? ==> !(1 <= n < num)
      invariant found.Some? ==> 1 <= n < num && found.value == Entries(cats[..i])[n - 1]
      decreases |cats| - i, if found.None? then 1 else 0
    {
      var c := cats[i];
      var j := 0;
      ghost var before := Entries(cats[..i]);
      while j < |c.questions|
        invariant 0 <= j <= |c.questions|
        invariant num == |before| + j + 1
        invariant found.None? ==> !(1 <= n < num)
        invariant found.Some? ==> 1 <= n < num && found.value == (before + CategoryEntries(c)[..j])[n - 1]
      {
        if num == n {
          found := Some(Entry(c.questions[j].question, c.questions[j].answer, c.name));
          assert (before + CategoryEntries(c)[..j + 1])[n - 1] == CategoryEntries(c)[j];
          num := num + 1;
          j := j + 1;
          break;
        }
        num := num + 1;
        j := j + 1;
      }
      assert cats[..i + 1][..i] == cats[..i];
      assert Entries(cats[..i + 1]) == before + CategoryEntries(c);
      if found.Some? {
        assert (before + CategoryEntries(c)[..j])[n - 1] == (before + CategoryEntries(c))[n - 1];
        PrefixEntries(cats, i + 1);
        return;
      }
      i := i + 1;
    }
    assert cats[..i] == cats;
  }

  /** The entries of a prefix of the corpus are a prefix of its entries. */
  lemma {:induction false} PrefixEntries(cats: seq<Category>, i: nat)
    requires i <= |cats|
    ensures |Entries(cats[..i])| <= |Entries(cats)|
    ensures Entries(cats[..i]) == Entries(cats)[..|Entries(cats[..i])|]
    decreases |cats| - i
  {
    if i < |cats| {
      PrefixEntries(cats, i + 1);
      assert cats[..i + 1][..i] == cats[..i];
    } else {
      assert cats[..i] == cats;
    }
  }

  /** The number a prompt line shows is the number the lookup resolves to the same FAQ. */
  lemma LookupAgreesWithNumbering(cats: seq<Category>, k: nat)
    requires k < |Numbered(cats)|
    ensures var f := Numbered(cats)[k];
      FaqNumbered(cats, f.num) == Some(Entry(f.question, f.answer, f.category))
  {
  }

  /** `validateFAQData` on a corpus that loaded: valid iff there is at least one question. */
  method ValidateFaqData(cats: seq<Category>) returns (isValid: bool, totalQuestions: nat, categories: nat)
    ensures totalQuestions == TotalQuestions(cats) && categories == |cats|
    ensures isValid <==> |Entries(cats)| > 0
  {
    totalQuestions := 0;
    categories := |cats|;
    var i := 0;
    while i < |cats|
      invariant 0 <= i <= |cats|
      invariant totalQuestions == TotalQuestions(cats[..i])
    {
      assert cats[..i + 1][..i] == cats[..i];
      totalQuestions := totalQuestions + |cats[i].questions|;
      i := i + 1;
    }
    assert cats[..i] == cats;
    EntriesCount(cats);
    isValid := totalQuestions > 0;
  }
  // ---------------------------------------------------------------------------
  // Conversation history for the prompts
  // ---------------------------------------------------------------------------

  datatype Message = Message(role: string, content: string)

  /** The messages whose role is not `system`, in order. */
  function NonSystem(h: seq<Message>): (r: seq<Message>)
    ensures |r| <= |h|
    ensures forall k :: 0 <= k < |r| ==> r[k].role != "system" && r[k] in h
    ensures forall m :: m in h && m.role != "system" ==> m in r
  {
    if h == [] then []
    else
      var init := NonSystem(h[..|h| - 1]);
      assert forall m :: m in h[..|h| - 1] ==> m in h;
      assert forall m :: m in h ==> m in h[..|h| - 1] || m == h[|h| - 1];
      if h[|h| - 1].role != "system" then init + [h[|h| - 1]] else init
  }

  /** Filtering keeps order: the non-system messages of a joined history are those of each part, joined. */
  lemma {:induction false} NonSystemAppend(a: seq<Message>, b: seq<Message>)
    ensures NonSystem(a + b) == NonSystem(a) + NonSystem(b)
    decreases |b|
  {
    if b == [] {
      assert a + b == a;
    } else {
      assert (a + b)[..|a + b| - 1] == a + b[..|b| - 1];
      NonSystemAppend(a, b[..|b| - 1]);
    }
  }

  /**
   * The history both matchers show the model: the non-system messages, only the
   * last four of them.
   */
  function RecentHistory(h: seq<Message>): (r: seq<Message>)
    ensures |r| <= 4
    ensures |r| == if |NonSystem(h)| < 4 then |NonSystem(h)| else 4
    ensures r == NonSystem(h)[|NonSystem(h)| - |r|..]
  {
    var ns := NonSystem(h);
    if |ns| > 4 then ns[|ns| - 4..] else ns
  }

  /** No system message reaches the prompt, and the latest message, if it is not a system one, always does. */
  lemma RecentHistoryKeepsLatest(h: seq<Message>)
    ensures forall k :: 0 <= k < |RecentHistory(h)| ==> RecentHistory(h)[k].role != "system"
    ensures h != [] && h[|h| - 1].role != "system" ==>
      RecentHistory(h) != [] && RecentHistory(h)[|RecentHistory(h)| - 1] == h[|h| - 1]
  {
    var r := RecentHistory(h);
    var ns := NonSystem(h);
    forall k | 0 <= k < |r|
      ensures r[k].role != "system"
    {
      assert r[k] == ns[|ns| - |r| + k];
    }
  }

  /** A history of at most four messages, none of them a system one, is shown whole. */
  lemma {:induction false} ShortHistoryShownWhole(h: seq<Message>)
    requires |h| <= 4
    requires forall k :: 0 <= k < |h| ==> h[k].role != "system"
    ensures RecentHistory(h) == h
  {
    NonSystemOfNoSystem(h);
  }

  lemma {:induction false} NonSystemOfNoSystem(h: seq<Message>)
    requires forall k :: 0 <= k < |h| ==> h[k].role != "system"
    ensures NonSystem(h) == h
  {
    if h != [] {
      NonSystemOfNoSystem(h[..|h| - 1]);
    }
  }
}
