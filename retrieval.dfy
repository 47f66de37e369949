/**
 * `retrievePropertiesAllObjects`: submit the filters once, then trade the
 * continuation token for further pages until it is null or empty, collecting
 * every page's objects. Any fault ends the retrieval and the objects collected
 * so far are returned.
 */
module Retrieval {
  import opened Wrappers
  import opened Vim

  /** A token that asks for another page: present and non-empty. */
  predicate Live(token: Option<string>)
  {
    token.Some? && token.value != ""
  }

  /** The token a (possibly null) page carries. */
  function TokenOf(page: Option<RetrieveResult>): Option<string>
  {
    if page.Some? then page.value.token else None
  }

  /** The objects a page adds: none for a null page or a null or empty list. */
  function Added(page: Option<RetrieveResult>): seq<ObjectContent>
  {
    if page.Some? && page.value.objects.Some? then page.value.objects.value else []
  }

  /**
   * What a retrieval leaves behind: the accumulated objects, the tokens sent to
   * `continueRetrievePropertiesEx` in order, and whether a fault ended it.
   */
  datatype Outcome = Outcome(objects: seq<ObjectContent>, continued: seq<string>, faulted: bool)

  /**
   * The loop from `token` on, against the remaining continuation replies. A
   * live token with no reply left is answered by a fault.
   */
  function Continue(token: Option<string>, replies: seq<Reply>): (o: Outcome)
    ensures forall t :: t in o.continued ==> t != ""
    decreases |replies|
  {
    if !Live(token) then Outcome([], [], false)
    else if replies == [] || replies[0].Fault? then Outcome([], [token.value], true)
    else
      var rest := Continue(TokenOf(replies[0].result), replies[1..]);
      Outcome(Added(replies[0].result) + rest.objects, [token.value] + rest.continued, rest.faulted)
  }

  /** The whole retrieval against one conversation with the collector. */
  function Drive(c: Conversation): Outcome
  {
    match c.first
    case Fault => Outcome([], [], true)
    case Answer(page) =>
      var rest := Continue(TokenOf(page), c.continued);
      Outcome(Added(page) + rest.objects, rest.continued, rest.faulted)
  }

  /** The objects of `pages`, page after page. */
  function Concat(pages: seq<Option<RetrieveResult>>): seq<ObjectContent>
  {
    if pages == [] then [] else Added(pages[0]) + Concat(pages[1..])
  }

  /** The token text of each page, in order. */
  function Tokens(pages: seq<Option<RetrieveResult>>): seq<string>
  {
    if pages == [] then []
    else [if TokenOf(pages[0]).Some? then TokenOf(pages[0]).value else ""] + Tokens(pages[1..])
  }

  /** The replies of a conversation in the order they arrive. */
  function Replies(c: Conversation): seq<Reply>
  {
    [c.first] + c.continued
  }

  method RetrievePropertiesAllObjects(service: Collector, filters: seq<PropertyFilterSpec>)
    returns (objects: seq<ObjectContent>, continued: seq<string>)
    ensures objects == Drive(service(filters)).objects
    ensures continued == Drive(service(filters)).continued
  {
    var conversation := service(filters);
    ghost var goal := Drive(conversation);
    objects, continued := [], [];
    if conversation.first.Fault? {
      return;
    }
    var rslts := conversation.first.result;
    if rslts.Some? && rslts.value.objects.Some? && rslts.value.objects.value != [] {
      objects := objects + rslts.value.objects.value;
    }
    var token: Option<string> := None;
    if rslts.Some? && rslts.value.token.Some? {
      token := rslts.value.token;
    }
    var k := 0;
    while token.Some? && token.value != ""
      invariant 0 <= k <= |conversation.continued|
      invariant objects + Continue(token, conversation.continued[k..]).objects == goal.objects
      invariant continued + Continue(token, conversation.continued[k..]).continued == goal.continued
      decreases |conversation.continued| - k
    {
      continued := continued + [token.value];
      if k == |conversation.continued| || conversation.continued[k].Fault? {
        return;
      }
      rslts := conversation.continued[k].result;
      assert conversation.continued[k..][1..] == conversation.continued[k + 1..];
      k := k + 1;
      token := None;
      if rslts.Some? {
        token := rslts.value.token;
        if rslts.value.objects.Some? && rslts.value.objects.value != [] {
          objects := objects + rslts.value.objects.value;
        }
      }
    }
  }

  lemma {:induction false} ContinueComplete(replies: seq<Reply>, pages: seq<Option<RetrieveResult>>)
    requires 1 <= |pages| <= 1 + |replies|
    requires forall i :: 1 <= i < |pages| ==> replies[i - 1] == Answer(pages[i])
    requires forall i :: 0 <= i < |pages| - 1 ==> Live(TokenOf(pages[i]))
    requires !Live(TokenOf(pages[|pages| - 1]))
    ensures Continue(TokenOf(pages[0]), replies) == Outcome(Concat(pages[1..]), Tokens(pages[..|pages| - 1]), false)
  {
    if |pages| > 1 {
      ContinueComplete(replies[1..], pages[1..]);
      assert pages[1..][1..] == pages[2..];
      assert pages[1..][..|pages[1..]| - 1] == pages[..|pages| - 1][1..];
    }
  }

  lemma {:induction false} ContinuePartial(replies: seq<Reply>, pages: seq<Option<RetrieveResult>>)
    requires 1 <= |pages| <= 1 + |replies|
    requires forall i :: 1 <= i < |pages| ==> replies[i - 1] == Answer(pages[i])
    requires forall i :: 0 <= i < |pages| ==> Live(TokenOf(pages[i]))
    requires |pages| - 1 == |replies| || replies[|pages| - 1].Fault?
    ensures Continue(TokenOf(pages[0]), replies) == Outcome(Concat(pages[1..]), Tokens(pages), true)
  {
    if |pages| > 1 {
      ContinuePartial(replies[1..], pages[1..]);
      assert pages[1..][1..] == pages[2..];
    }
  }

  /**
   * A retrieval that runs to the end returns every page's objects in page
   * order, and sends each page's token but the last's, which is null or empty.
   */
  lemma {:induction false} RetrievesEveryPage(c: Conversation, pages: seq<Option<RetrieveResult>>)
    requires 1 <= |pages| <= |Replies(c)|
    requires forall i :: 0 <= i < |pages| ==> Replies(c)[i] == Answer(pages[i])
    requires forall i :: 0 <= i < |pages| - 1 ==> Live(TokenOf(pages[i]))
    requires !Live(TokenOf(pages[|pages| - 1]))
    ensures Drive(c) == Outcome(Concat(pages), Tokens(pages[..|pages| - 1]), false)
  {
    assert c.first == Answer(pages[0]);
    ContinueComplete(c.continued, pages);
  }

  /**
   * A fault, on the first call or on any continuation, ends the retrieval with
   * the objects of the pages answered before it, in page order.
   */
  lemma {:induction false} FaultKeepsPartialList(c: Conversation, pages: seq<Option<RetrieveResult>>)
    requires |pages| < |Replies(c)| ==> Replies(c)[|pages|].Fault?
    requires |pages| <= |Replies(c)|
    requires forall i :: 0 <= i < |pages| ==> Replies(c)[i] == Answer(pages[i])
    requires forall i :: 0 <= i < |pages| ==> Live(TokenOf(pages[i]))
    ensures Drive(c) == Outcome(Concat(pages), Tokens(pages), true)
  {
    if pages == [] {
      assert Replies(c)[0] == c.first;
    } else {
      assert c.first == Answer(pages[0]);
      ContinuePartial(c.continued, pages);
    }
  }
}
