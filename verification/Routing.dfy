/** The event-driven request router: components of one request arrive one by one. */
module Routing {
  import opened Wrappers
  import opened FunctionTable
  import opened OptionTable

  datatype Component =
    | MethodIs(httpMethod: HttpMethod)
    | PathElement(text: string)
    | Data(text: string)
    | DataLast(text: string)
    | Other

  datatype Reply = NotFound | InvalidJson | Handled(f: Function, document: string)

  // ----- what a whole request means; `isObject` tells whether a text parses as a JSON object

  function Named(m: HttpMethod, name: string): Option<Function> {
    var e := FunctionNamed(name);
    if e.Some? && e.value.0 == m then Some(e.value.1) else None
  }

  /** The path so far leads somewhere: nothing yet, "api", or "api" and a name fitting the method. */
  predicate PathOk(m: HttpMethod, path: seq<string>) {
    || path == []
    || path == ["api"]
    || (|path| == 2 && path[0] == "api" && Named(m, path[1]).Some?)
  }

  function FunctionAt(m: HttpMethod, path: seq<string>): Function
    requires PathOk(m, path)
  {
    if path == [] then Unknown
    else if |path| == 1 then Api
    else Named(m, path[1]).value
  }

  /** The text handed to the JSON parser: as far as a C string goes, or "{}" for an empty body. */
  function DocumentText(body: string): string {
    if body == "" then "{}" else body[..IndexOf(body, '\0')]
  }

  function Answer(isObject: string -> bool, m: HttpMethod, path: seq<string>, body: string): Reply
    requires PathOk(m, path)
  {
    if !isObject(DocumentText(body)) then InvalidJson
    else if |path| < 2 then NotFound
    else Handled(FunctionAt(m, path), DocumentText(body))
  }

  function Path(cs: seq<Component>): seq<string> {
    if cs == [] then []
    else Path(cs[..|cs| - 1]) + (if cs[|cs| - 1].PathElement? then [cs[|cs| - 1].text] else [])
  }

  function Body(cs: seq<Component>): string {
    if cs == [] then ""
    else Body(cs[..|cs| - 1]) + (if cs[|cs| - 1].Data? || cs[|cs| - 1].DataLast? then cs[|cs| - 1].text else "")
  }

  /** One request: a method first and nowhere else, last data at most once and only at the end. */
  predicate SingleRequest(cs: seq<Component>) {
    && cs != [] && cs[0].MethodIs?
    && (forall i :: 0 < i < |cs| ==> !cs[i].MethodIs?)
    && (forall i :: 0 <= i < |cs| - 1 ==> !cs[i].DataLast?)
  }

  /** All that is ever sent for a request, from its method, path and body alone. */
  function Replies(isObject: string -> bool, cs: seq<Component>): seq<Reply>
    requires SingleRequest(cs)
  {
    var m, path := cs[0].httpMethod, Path(cs);
    if !PathOk(m, path) then [NotFound]
    else if cs[|cs| - 1].DataLast? then [Answer(isObject, m, path, Body(cs))]
    else []
  }

  lemma NotYetNamed(m: HttpMethod, path: seq<string>)
    requires PathOk(m, path)
    ensures FunctionAt(m, path) in HANDLED <==> |path| == 2
    ensures FunctionAt(m, path) == Unknown <==> path == []
    ensures FunctionAt(m, path) == Api <==> path == ["api"]
  {
    if |path| == 2 { NamedFunctionIsHandled(path[1]); }
    AllButUnnamedAreHandled(FunctionAt(m, path));
  }

  class Connection {
    const isObject: string -> bool
    var httpMethod: HttpMethod
    var function_: Function
    var request: string
    var sent: seq<Reply>
    ghost var path: seq<string>

    constructor (isObject: string -> bool)
      ensures this.isObject == isObject && request == "" && sent == []
    {
      this.isObject := isObject;
      httpMethod, function_, request, sent, path := OtherMethod(0), Unknown, "", [], [];
    }

    ghost predicate Valid()
      reads this
    {
      PathOk(httpMethod, path) && function_ == FunctionAt(httpMethod, path)
    }

    /** The parser's callback; false cancels the parse. */
    method OnParse(c: Component) returns (goOn: bool)
      requires !c.MethodIs? ==> Valid()
      modifies this
      ensures goOn ==> Valid()
      ensures c.MethodIs? ==> goOn && httpMethod == c.httpMethod && path == []
      ensures c.MethodIs? || c.Other? ==> goOn && request == old(request) && sent == old(sent)
      ensures !c.MethodIs? ==> httpMethod == old(httpMethod)
      ensures c.PathElement? ==> path == old(path) + [c.text] && request == old(request)
      ensures c.PathElement? ==> goOn == PathOk(httpMethod, path)
      ensures c.PathElement? ==> sent == old(sent) + if goOn then [] else [NotFound]
      ensures c.Data? || c.DataLast? ==> request == old(request) + c.text
      ensures c.Data? ==> goOn && sent == old(sent)
      ensures c.Data? || c.DataLast? || c.Other? ==> path == old(path)
      ensures c.DataLast? ==>
        var answer := Answer(isObject, httpMethod, path, request);
        sent == old(sent) + [answer] && goOn == (answer != NotFound)
    {
      if c.MethodIs? {
        httpMethod, function_, path := c.httpMethod, Unknown, [];
        return true;
      }
      NotYetNamed(httpMethod, path);
      hide FunctionNamed;
      if c.PathElement? {
        path := path + [c.text];
        assert path[0] == (if old(path) == [] then c.text else "api") && |path| == |old(path)| + 1;
        if function_ == Unknown && c.text == "api" {
          function_ := Api;
        } else if function_ == Api {
          assert path == ["api", c.text];
          var it := FunctionNamed(c.text);
          if it.None? || it.value.0 != httpMethod {
            sent := sent + [NotFound];
            return false;
          }
          function_ := it.value.1;
          return true;
        } else {
          sent := sent + [NotFound];
          return false;
        }
      } else if c.Data? {
        request := request + c.text;
        return true;
      } else if c.DataLast? {
        request := request + c.text;
        var document := if request != "" then request[..IndexOf(request, '\0')] else "{}";
        if !isObject(document) {
          sent := sent + [InvalidJson];
          return true;
        }
        if function_ in HANDLED {
          sent := sent + [Handled(function_, document)];
        } else {
          sent := sent + [NotFound];
          return false;
        }
      }
      return true;
    }

    /** Feeding the components of one request to the callback until it cancels. */
    method OnRequest(cs: seq<Component>)
      requires SingleRequest(cs) && request == ""
      modifies this
      ensures sent == old(sent) + Replies(isObject, cs)
    {
      hide Answer, DocumentText, PathOk, FunctionAt, Path, Body;
      assert Path([]) == [] && Body([]) == "" && cs[..0] == [] by { StartOfRequest(); }
      for i := 0 to |cs|
        invariant i > 0 ==> Valid() && httpMethod == cs[0].httpMethod && path == Path(cs[..i])
        invariant request == Body(cs[..i])
        invariant i < |cs| || !cs[|cs| - 1].DataLast?
        invariant sent == old(sent)
      {
        OneMore(cs, i);
        var goOn := OnParse(cs[i]);
        if cs[i].PathElement? && !goOn {
          BadPathStaysBad(httpMethod, cs, i + 1);
          return;
        }
        if cs[i].DataLast? {
          assert cs[..i + 1] == cs && path == Path(cs);
          return;
        }
      }
      assert cs[..|cs|] == cs;
    }
  }

  lemma StartOfRequest()
    ensures Path([]) == [] && Body([]) == ""
  {}

  lemma OneMore(cs: seq<Component>, i: nat)
    requires i < |cs|
    ensures Path(cs[..i + 1]) == Path(cs[..i]) + if cs[i].PathElement? then [cs[i].text] else []
    ensures Body(cs[..i + 1]) == Body(cs[..i]) + if cs[i].Data? || cs[i].DataLast? then cs[i].text else ""
  {
    assert cs[..i + 1][..i] == cs[..i];
  }

  lemma {:induction false} PathGrows(cs: seq<Component>, k: nat)
    requires k <= |cs|
    ensures Path(cs[..k]) <= Path(cs)
  {
    if k < |cs| {
      PathGrows(cs[..|cs| - 1], k);
      assert cs[..|cs| - 1][..k] == cs[..k];
    } else {
      assert cs[..k] == cs;
    }
  }

  lemma PrefixOfGoodPath(m: HttpMethod, p: seq<string>, q: seq<string>)
    requires p <= q && PathOk(m, q)
    ensures PathOk(m, p)
  {}

  lemma BadPathStaysBad(m: HttpMethod, cs: seq<Component>, k: nat)
    requires k <= |cs| && !PathOk(m, Path(cs[..k]))
    ensures !PathOk(m, Path(cs))
  {
    PathGrows(cs, k);
    hide Path, PathOk;
    if PathOk(m, Path(cs)) {
      PrefixOfGoodPath(m, Path(cs[..k]), Path(cs));
    }
  }

  lemma {:induction false} PathOfJoined(x: seq<Component>, y: seq<Component>)
    ensures Path(x + y) == Path(x) + Path(y) && Body(x + y) == Body(x) + Body(y)
  {
    if y == [] {
      assert x + y == x;
    } else {
      PathOfJoined(x, y[..|y| - 1]);
      assert (x + y)[..|x + y| - 1] == x + y[..|y| - 1];
    }
  }

  /** The path names a function that the method fits. */
  ghost predicate NamesFunction(m: HttpMethod, path: seq<string>) {
    m == Post && exists f :: f != Unknown && f != Api && path == ["api", ApiName(f)]
  }

  lemma NamesFunctionIff(m: HttpMethod, path: seq<string>)
    ensures PathOk(m, path) <==> path == [] || path == ["api"] || NamesFunction(m, path)
  {
    if |path| == 2 {
      var e := FunctionNamed(path[1]);
      if e.Some? { NamedIff(path[1], e.value.0, e.value.1); }
      if f :| f != Unknown && f != Api && path == ["api", ApiName(f)] { NamedIff(path[1], Post, f); }
      assert path == [path[0], path[1]];
    }
    hide FunctionNamed, ApiName;
  }

  lemma HandledAnswerIff(isObject: string -> bool, m: HttpMethod, path: seq<string>, body: string, f: Function,
                         document: string)
    requires PathOk(m, path)
    ensures Answer(isObject, m, path, body) == Handled(f, document) <==>
      && m == Post && f != Unknown && f != Api && path == ["api", ApiName(f)]
      && document == DocumentText(body) && isObject(document)
  {
    if |path| == 2 {
      assert path == [path[0], path[1]];
      NamedIff(path[1], m, f);
    }
    hide FunctionNamed, ApiName, DocumentText;
  }

  lemma OtherAnswerIff(isObject: string -> bool, m: HttpMethod, path: seq<string>, body: string)
    requires PathOk(m, path)
    ensures Answer(isObject, m, path, body) == InvalidJson <==> !isObject(DocumentText(body))
    ensures Answer(isObject, m, path, body) == NotFound <==>
      isObject(DocumentText(body)) && (path == [] || path == ["api"])
  {}

  /** A handler runs at most once, and exactly for a complete POST request whose path is "api" and what
      clients call the handler's function, and whose whole body is a JSON object. */
  lemma HandlerRunsIff(isObject: string -> bool, cs: seq<Component>, f: Function, document: string)
    requires SingleRequest(cs)
    ensures |Replies(isObject, cs)| <= 1
    ensures Handled(f, document) in Replies(isObject, cs) <==>
      && cs[0].httpMethod == Post && f != Unknown && f != Api && Path(cs) == ["api", ApiName(f)]
      && cs[|cs| - 1].DataLast? && document == DocumentText(Body(cs)) && isObject(document)
  {
    var m, path := cs[0].httpMethod, Path(cs);
    NamesFunctionIff(m, path);
    hide PathOk, ApiName, Path, Body, DocumentText, Answer;
    if PathOk(m, path) { HandledAnswerIff(isObject, m, path, Body(cs), f, document); }
  }

  /** "Not found" is for a path that leads nowhere, and for an object sent to no function. */
  lemma NotFoundIff(isObject: string -> bool, cs: seq<Component>)
    requires SingleRequest(cs)
    ensures var path, early := Path(cs), Path(cs) == [] || Path(cs) == ["api"];
      Replies(isObject, cs) == [NotFound] <==>
        || (!early && !NamesFunction(cs[0].httpMethod, path))
        || (early && cs[|cs| - 1].DataLast? && isObject(DocumentText(Body(cs))))
  {
    var m, path := cs[0].httpMethod, Path(cs);
    NamesFunctionIff(m, path);
    hide PathOk, NamesFunction, Path, Body, DocumentText, Answer;
    if PathOk(m, path) { OtherAnswerIff(isObject, m, path, Body(cs)); }
  }

  /** "Invalid JSON" is for anything but an object. */
  lemma InvalidJsonIff(isObject: string -> bool, cs: seq<Component>)
    requires SingleRequest(cs)
    ensures var path, early := Path(cs), Path(cs) == [] || Path(cs) == ["api"];
      Replies(isObject, cs) == [InvalidJson] <==>
        && (early || NamesFunction(cs[0].httpMethod, path))
        && cs[|cs| - 1].DataLast? && !isObject(DocumentText(Body(cs)))
  {
    var m, path := cs[0].httpMethod, Path(cs);
    NamesFunctionIff(m, path);
    hide PathOk, NamesFunction, Path, Body, DocumentText, Answer;
    if PathOk(m, path) { OtherAnswerIff(isObject, m, path, Body(cs)); }
  }

  /** Nothing is sent while a request that leads somewhere is incomplete. */
  lemma NothingSentIff(isObject: string -> bool, cs: seq<Component>)
    requires SingleRequest(cs)
    ensures var path, early := Path(cs), Path(cs) == [] || Path(cs) == ["api"];
      Replies(isObject, cs) == [] <==>
        (early || NamesFunction(cs[0].httpMethod, path)) && !cs[|cs| - 1].DataLast?
  {
    NamesFunctionIff(cs[0].httpMethod, Path(cs));
    hide PathOk, NamesFunction, Path, Body, Answer;
  }

  /** The text that is parsed: "{}" for an empty body, otherwise what stands before the first NUL. */
  lemma WhatIsParsed(text: string, tail: string)
    requires '\0' !in text
    ensures DocumentText("") == "{}"
    ensures text != "" ==> DocumentText(text) == text
    ensures DocumentText(text + "\0" + tail) == text
  {
    IndexIsUnique(text, '\0', |text|);
    var body := text + "\0" + tail;
    assert body[..|text|] == text;
    IndexIsUnique(body, '\0', |text|);
    assert text[..|text|] == text;
  }

  function Fragments(texts: seq<string>): seq<Component> {
    if texts == [] then [] else [Data(texts[0])] + Fragments(texts[1..])
  }

  function Text(texts: seq<string>): string {
    if texts == [] then "" else texts[0] + Text(texts[1..])
  }

  lemma PathOfOne(c: Component)
    ensures Path([c]) == if c.PathElement? then [c.text] else []
    ensures Body([c]) == if c.Data? || c.DataLast? then c.text else ""
  {
    assert [c][..0] == [];
  }

  lemma {:induction false} FragmentsAreBody(texts: seq<string>)
    ensures Path(Fragments(texts)) == [] && Body(Fragments(texts)) == Text(texts)
    ensures forall c :: c in Fragments(texts) ==> c.Data?
  {
    if texts == [] {
    } else {
      FragmentsAreBody(texts[1..]);
      PathOfJoined([Data(texts[0])], Fragments(texts[1..]));
      PathOfOne(Data(texts[0]));
      hide Path, Body;
    }
  }

  lemma PathOfThree(m: HttpMethod, a: string, b: string)
    ensures Path([MethodIs(m), PathElement(a), PathElement(b)]) == [a, b]
    ensures Body([MethodIs(m), PathElement(a), PathElement(b)]) == ""
  {
    hide Path, Body;
    PathOfOne(MethodIs(m));
    PathOfOne(PathElement(a));
    PathOfOne(PathElement(b));
    PathOfJoined([MethodIs(m)], [PathElement(a)]);
    PathOfJoined([MethodIs(m)] + [PathElement(a)], [PathElement(b)]);
    assert [MethodIs(m)] + [PathElement(a)] + [PathElement(b)] == [MethodIs(m), PathElement(a), PathElement(b)];
  }

  /** POST /api/<name> with a body in any fragments: the function of that name handles the body, if it is
      an object, and no other. */
  lemma PostByName(isObject: string -> bool, f: Function, texts: seq<string>, last: string)
    requires f != Unknown && f != Api && '\0' !in Text(texts) + last
    ensures var body := Text(texts) + last;
      var document := if body == "" then "{}" else body;
      var cs := [MethodIs(Post), PathElement("api"), PathElement(ApiName(f))] + Fragments(texts) + [DataLast(last)];
      && SingleRequest(cs)
      && Replies(isObject, cs) == [if isObject(document) then Handled(f, document) else InvalidJson]
  {
    var head, body := [MethodIs(Post), PathElement("api"), PathElement(ApiName(f))], Text(texts) + last;
    var cs := head + Fragments(texts) + [DataLast(last)];
    FragmentsAreBody(texts);
    hide Path, Body, Fragments, Text, ApiName, DocumentText, Replies;
    PathOfThree(Post, "api", ApiName(f));
    PathOfOne(DataLast(last));
    PathOfJoined(head, Fragments(texts));
    PathOfJoined(head + Fragments(texts), [DataLast(last)]);
    assert Path(cs) == ["api", ApiName(f)] && Body(cs) == body;
    PostedIsSingle(head, Fragments(texts), last);
    WhatIsParsed(body, "");
    HandlerRunsIff(isObject, cs, f, DocumentText(body));
    InvalidJsonIff(isObject, cs);
    assert NamesFunction(Post, Path(cs)) && |Path(cs)| == 2;
  }

  lemma PostedIsSingle(head: seq<Component>, data: seq<Component>, last: string)
    requires |head| == 3 && head[0].MethodIs? && head[1].PathElement? && head[2].PathElement?
    requires forall c :: c in data ==> c.Data?
    ensures SingleRequest(head + data + [DataLast(last)])
  {
    var cs := head + data + [DataLast(last)];
    forall i | 3 <= i < |cs| - 1 ensures cs[i].Data? {
      assert cs[i] == data[i - 3] && data[i - 3] in data;
    }
  }

  /** `w` and `c` are alike but for the element at `k` of `w`, which is two elements in `c`. */
  ghost predicate CutAt(w: seq<Component>, c: seq<Component>, k: nat) {
    && 0 < k < |w| && |c| == |w| + 1
    && c[..k] == w[..k] && c[k + 2..] == w[k + 1..]
    && c[k].Data? && (w[k].Data? || w[k].DataLast?) && (c[k + 1].Data? || c[k + 1].DataLast?)
    && c[k + 1].Data? == w[k].Data? && w[k].text == c[k].text + c[k + 1].text
  }

  lemma CutIsSingle(w: seq<Component>, c: seq<Component>, k: nat)
    requires CutAt(w, c, k) && SingleRequest(w)
    ensures SingleRequest(c) && c[0] == w[0] && c[|c| - 1].DataLast? == w[|w| - 1].DataLast?
  {}

  /** How the body is cut into fragments makes no difference: cutting any fragment in two, the last one
      included, changes no reply. */
  lemma FragmentationIrrelevant(isObject: string -> bool, w: seq<Component>, c: seq<Component>, k: nat)
    requires CutAt(w, c, k) && SingleRequest(w)
    ensures SingleRequest(c) && Replies(isObject, c) == Replies(isObject, w)
  {
    CutIsSingle(w, c, k);
    var before, whole, cut, after := w[..k], [w[k]], [c[k], c[k + 1]], w[k + 1..];
    assert w == before + whole + after;
    assert c == c[..k] + cut + c[k + 2..] == before + cut + after;
    assert cut[..1] == [c[k]] && whole[..0] == [] == cut[..1][..0];
    assert Path(cut) == Path(whole) && Body(cut) == Body(whole) by {
      assert Path(cut[..1]) == [] && Body(cut[..1]) == c[k].text;
    }
    PathOfJoined(before, whole);
    PathOfJoined(before, cut);
    PathOfJoined(before + whole, after);
    PathOfJoined(before + cut, after);
  }
}
