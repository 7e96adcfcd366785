/**
 * The "value" input scheme of the fetchers (src/libfetchers/value.cc): an input that is a
 * literal value, written as `value:<path>?rev=..&narHash=..&revCount=..&lastModified=..`,
 * and its conversions between URLs and attribute maps.
 *
 * Attribute maps and query maps are std::maps: their loops visit keys in Ordered.Less order.
 * Parsing and printing of unsigned 64-bit numbers belong to other files and are parameters.
 */
module ValueInput {
  import opened Wrappers
  import opened Ordered

  type UInt64 = n: nat | n < 0x1_0000_0000_0000_0000

  /** A fetcher attribute: a string, an unsigned 64-bit number or a Boolean. */
  datatype Attr = StrAttr(s: string) | IntAttr(n: UInt64) | BoolAttr(b: bool)

  type Attrs = map<string, Attr>

  datatype ParsedURL = ParsedURL(
    url: string,
    scheme: string,
    authority: Option<string>,
    path: string,
    query: map<string, string>)

  datatype Input = Input(attrs: Attrs)

  datatype FetchError =
    | AuthorityNotAllowed(url: string, authority: string)
    | InvalidParameter(url: string, name: string)
    | UnsupportedParameter(url: string, name: string)
    | MissingAttribute(name: string)
    | AttributeNotString(name: string)
    | UnsupportedAttribute(name: string)

  /** string2Int<uint64_t> */
  type ParseUInt64 = string -> Option<UInt64>

  /** std::to_string on uint64_t, as attrsToQuery uses it. */
  type ShowUInt64 = UInt64 -> string

  /** getStrAttr: the attribute, which must exist and be a string. */
  function GetStrAttr(attrs: Attrs, name: string): (r: Result<string, FetchError>)
    ensures r.Success? <==> name in attrs && attrs[name].StrAttr?
    ensures r.Success? ==> attrs[name] == StrAttr(r.value)
    ensures r.Failure? ==> r.error == (if name in attrs then AttributeNotString(name) else MissingAttribute(name))
  {
    if name !in attrs then Failure(MissingAttribute(name))
    else match attrs[name]
      case StrAttr(s) => Success(s)
      case _ => Failure(AttributeNotString(name))
  }

  // ---------------------------------------------------------------------------------
  // inputFromURL

  predicate IsStringParam(name: string)
  {
    name == "rev" || name == "narHash"
  }

  predicate IsIntParam(name: string)
  {
    name == "revCount" || name == "lastModified"
  }

  /** The attribute one query parameter becomes, or the error it raises. */
  function ParamAttr(url: ParsedURL, name: string, value: string, parse: ParseUInt64): Result<Attr, FetchError>
  {
    if IsStringParam(name) then Success(StrAttr(value))
    else if IsIntParam(name) then
      match parse(value)
      case Some(n) => Success(IntAttr(n))
      case None => Failure(InvalidParameter(url.url, name))
    else Failure(UnsupportedParameter(url.url, name))
  }

  /** The query parameters that raise an error. */
  function BadParams(url: ParsedURL, parse: ParseUInt64): set<string>
  {
    set name | name in url.query && ParamAttr(url, name, url.query[name], parse).Failure?
  }

  /** The attribute an accepted parameter becomes. */
  function ParamValue(name: string, value: string, parse: ParseUInt64): Attr
  {
    if IsIntParam(name) && parse(value).Some? then IntAttr(parse(value).value) else StrAttr(value)
  }

  /** The attributes of a URL whose parameters are all accepted. */
  function URLAttrs(url: ParsedURL, parse: ParseUInt64): Attrs
  {
    map name | name in url.query.Keys + {"type", "value"} ::
      if name == "type" then StrAttr("value")
      else if name == "value" then StrAttr(url.path)
      else ParamValue(name, url.query[name], parse)
  }

  /** What inputFromURL returns: nothing for another scheme; an error for an authority or
      for the first offending parameter in key order; otherwise the input. */
  function FromURL(url: ParsedURL, parse: ParseUInt64): Result<Option<Input>, FetchError>
  {
    if url.scheme != "value" then Success(None)
    else if url.authority.Some? && url.authority.value != "" then
      Failure(AuthorityNotAllowed(url.url, url.authority.value))
    else if BadParams(url, parse) != {} then
      var name := Least(BadParams(url, parse));
      Failure(ParamAttr(url, name, url.query[name], parse).error)
    else Success(Some(Input(URLAttrs(url, parse))))
  }

  /** The loop state of inputFromURL once the parameters in `seen` have been accepted. */
  predicate GoodPrefix(url: ParsedURL, parse: ParseUInt64, attrs: Attrs, seen: set<string>)
  {
    && seen <= url.query.Keys
    && attrs.Keys == seen + {"type", "value"}
    && attrs["type"] == StrAttr("value") && attrs["value"] == StrAttr(url.path)
    && forall name :: name in seen ==>
         && name !in BadParams(url, parse)
         && attrs[name] == ParamAttr(url, name, url.query[name], parse).value
  }

  lemma GoodPrefixComplete(url: ParsedURL, parse: ParseUInt64, attrs: Attrs)
    requires GoodPrefix(url, parse, attrs, url.query.Keys)
    ensures BadParams(url, parse) == {}
    ensures attrs == URLAttrs(url, parse)
  {
  }

  lemma GoodPrefixStep(url: ParsedURL, parse: ParseUInt64, attrs: Attrs, seen: set<string>, name: string)
    requires GoodPrefix(url, parse, attrs, seen)
    requires name in url.query && ParamAttr(url, name, url.query[name], parse).Success?
    ensures GoodPrefix(url, parse, attrs[name := ParamAttr(url, name, url.query[name], parse).value], seen + {name})
  {
    assert name !in BadParams(url, parse);
  }

  method InputFromURL(url: ParsedURL, parse: ParseUInt64) returns (r: Result<Option<Input>, FetchError>)
    ensures r == FromURL(url, parse)
  {
    if url.scheme != "value" {
      return Success(None);
    }
    if url.authority.Some? && url.authority.value != "" {
      return Failure(AuthorityNotAllowed(url.url, url.authority.value));
    }
    var attrs :- ParseParams(url, parse);
    return Success(Some(Input(attrs)));
  }

  /** The body of the loop of inputFromURL: add one query parameter, or refuse it. */
  method AddParam(url: ParsedURL, parse: ParseUInt64, attrs: Attrs, name: string) returns (r: Result<Attrs, FetchError>)
    requires name in url.query
    ensures r.Success? <==> ParamAttr(url, name, url.query[name], parse).Success?
    ensures r.Success? ==> r.value == attrs[name := ParamAttr(url, name, url.query[name], parse).value]
    ensures r.Failure? ==> r.error == ParamAttr(url, name, url.query[name], parse).error
  {
    var value := url.query[name];
    if name == "rev" || name == "narHash" {
      return Success(attrs[name := StrAttr(value)]);
    } else if name == "revCount" || name == "lastModified" {
      var n := parse(value);
      if n.Some? {
        return Success(attrs[name := IntAttr(n.value)]);
      } else {
        return Failure(InvalidParameter(url.url, name));
      }
    } else {
      return Failure(UnsupportedParameter(url.url, name));
    }
  }

  /** The loop of inputFromURL: the type and value attributes, then each query parameter
      in key order, stopping at the first one that is refused. */
  method ParseParams(url: ParsedURL, parse: ParseUInt64) returns (r: Result<Attrs, FetchError>)
    ensures BadParams(url, parse) == {} ==> r == Success(URLAttrs(url, parse))
    ensures BadParams(url, parse) != {} ==>
              var name := Least(BadParams(url, parse));
              r == Failure(ParamAttr(url, name, url.query[name], parse).error)
  {
    var attrs: Attrs := map[];
    attrs := attrs["type" := StrAttr("value")];
    attrs := attrs["value" := StrAttr(url.path)];

    // the range-for over the std::map: the least key not yet visited, one at a time
    var remaining := url.query.Keys;
    while remaining != {}
      invariant remaining <= url.query.Keys
      invariant GoodPrefix(url, parse, attrs, url.query.Keys - remaining)
      decreases |remaining|
    {
      var name := Least(remaining);
      ghost var before := attrs;
      var next := AddParam(url, parse, attrs, name);
      if next.Failure? {
        LeastOfSubset(BadParams(url, parse), remaining);
        return Failure(next.error);
      }
      attrs := next.value;
      GoodPrefixStep(url, parse, before, url.query.Keys - remaining, name);
      assert url.query.Keys - (remaining - {name}) == (url.query.Keys - remaining) + {name};
      remaining := remaining - {name};
    }
    GoodPrefixComplete(url, parse, attrs);
    return Success(attrs);
  }

  /** The attributes an accepted URL yields: its type, its path as the value, and one
      attribute per query parameter, all of them names the scheme knows. */
  lemma FromURLAttrs(url: ParsedURL, parse: ParseUInt64, input: Input)
    requires FromURL(url, parse) == Success(Some(input))
    ensures var attrs := input.attrs;
      && attrs.Keys == url.query.Keys + {"type", "value"}
      && attrs["type"] == StrAttr("value")
      && attrs["value"] == StrAttr(url.path)
      && (forall name :: name in url.query ==> IsStringParam(name) || IsIntParam(name))
      && (forall name :: name in url.query && IsStringParam(name) ==> attrs[name] == StrAttr(url.query[name]))
      && (forall name :: name in url.query && IsIntParam(name) ==> attrs[name] == IntAttr(parse(url.query[name]).value))
  {
    AcceptedURL(url, parse, input);
    assert forall name :: name in url.query ==> name !in BadParams(url, parse);
  }

  lemma AcceptedURL(url: ParsedURL, parse: ParseUInt64, input: Input)
    requires FromURL(url, parse) == Success(Some(input))
    ensures url.scheme == "value" && BadParams(url, parse) == {}
    ensures input.attrs == URLAttrs(url, parse)
  {
  }

  /** A parameter other than rev, narHash, revCount and lastModified always makes the URL fail. */
  lemma FromURLRejectsUnknown(url: ParsedURL, parse: ParseUInt64, name: string)
    requires url.scheme == "value" && name in url.query
    requires !IsStringParam(name) && !IsIntParam(name)
    ensures FromURL(url, parse).Failure?
  {
    assert name in BadParams(url, parse);
  }

  /** No value URL can set the type or override the value. */
  lemma FromURLFixesTypeAndValue(url: ParsedURL, parse: ParseUInt64)
    requires url.scheme == "value" && ("type" in url.query || "value" in url.query)
    ensures FromURL(url, parse).Failure?
  {
    if "type" in url.query {
      FromURLRejectsUnknown(url, parse, "type");
    } else {
      FromURLRejectsUnknown(url, parse, "value");
    }
  }

  // ---------------------------------------------------------------------------------
  // inputFromAttrs

  predicate AllowedAttr(name: string)
  {
    name == "type" || IsStringParam(name) || IsIntParam(name) || name == "value"
  }

  function UnknownAttrs(attrs: Attrs): set<string>
  {
    set name | name in attrs && !AllowedAttr(name)
  }

  /** What inputFromAttrs returns: the value must be a string and every attribute known
      (the first unknown one in key order is reported); the type is then forced. */
  function FromAttrs(attrs: Attrs): Result<Option<Input>, FetchError>
  {
    var _ :- GetStrAttr(attrs, "value");
    if UnknownAttrs(attrs) != {} then Failure(UnsupportedAttribute(Least(UnknownAttrs(attrs))))
    else Success(Some(Input(attrs["type" := StrAttr("value")])))
  }

  method InputFromAttrs(attrs: Attrs) returns (r: Result<Option<Input>, FetchError>)
    ensures r == FromAttrs(attrs)
  {
    var _ :- GetStrAttr(attrs, "value");
    var remaining := attrs.Keys;
    while remaining != {}
      invariant remaining <= attrs.Keys
      invariant forall name :: name in attrs.Keys - remaining ==> AllowedAttr(name)
      decreases |remaining|
    {
      var name := Least(remaining);
      if name == "type" || name == "rev" || name == "revCount" || name == "lastModified"
        || name == "narHash" || name == "value" {
        // checked by Input::fromAttrs
      } else {
        LeastOfSubset(UnknownAttrs(attrs), remaining);
        return Failure(UnsupportedAttribute(name));
      }
      remaining := remaining - {name};
    }
    assert UnknownAttrs(attrs) == {};
    var input := Input(attrs);
    input := input.(attrs := input.attrs["type" := StrAttr("value")]);
    return Success(Some(input));
  }

  /** inputFromAttrs accepts its own output and returns it unchanged. */
  lemma FromAttrsIdempotent(attrs: Attrs)
    requires FromAttrs(attrs).Success?
    ensures FromAttrs(FromAttrs(attrs).value.value.attrs) == FromAttrs(attrs)
  {
    var attrs' := FromAttrs(attrs).value.value.attrs;
    assert attrs'["type" := StrAttr("value")] == attrs';
    assert UnknownAttrs(attrs') == {} by {
      assert forall name :: name in attrs' ==> name == "type" || name in attrs;
    }
  }

  /** Inputs parsed from a URL pass inputFromAttrs unchanged. */
  lemma FromURLThenFromAttrs(url: ParsedURL, parse: ParseUInt64, input: Input)
    requires FromURL(url, parse) == Success(Some(input))
    ensures FromAttrs(input.attrs) == Success(Some(input))
  {
    FromURLAttrs(url, parse, input);
    var attrs := input.attrs;
    assert attrs["type" := StrAttr("value")] == attrs;
    assert UnknownAttrs(attrs) == {} by {
      forall name | name in attrs
        ensures AllowedAttr(name)
      {
        if name in url.query {
          assert name !in BadParams(url, parse);
        }
      }
    }
  }

  // ---------------------------------------------------------------------------------
  // toURL, hasAllInfo, getSourcePath

  /** attrsToQuery: each attribute as a string; Booleans as "1" and "0". */
  function RenderAttr(a: Attr, show: ShowUInt64): string
  {
    match a
    case StrAttr(s) => s
    case IntAttr(n) => show(n)
    case BoolAttr(b) => if b then "1" else "0"
  }

  function AttrsToQuery(attrs: Attrs, show: ShowUInt64): (q: map<string, string>)
    ensures q.Keys == attrs.Keys
    ensures forall name :: name in attrs ==> q[name] == RenderAttr(attrs[name], show)
  {
    map name | name in attrs :: RenderAttr(attrs[name], show)
  }

  /** The value URL of an input: every attribute but value and type goes in the query. */
  function URLOf(input: Input, show: ShowUInt64): (r: Result<ParsedURL, FetchError>)
    ensures r.Success? <==> GetStrAttr(input.attrs, "value").Success?
    ensures r.Success? ==> r.value.scheme == "value" && r.value.authority.None?
    ensures r.Success? ==> input.attrs["value"] == StrAttr(r.value.path)
    ensures r.Success? ==> r.value.query.Keys == input.attrs.Keys - {"value", "type"}
    ensures r.Success? ==> forall name :: name in r.value.query ==> r.value.query[name] == RenderAttr(input.attrs[name], show)
  {
    var query := AttrsToQuery(input.attrs, show) - {"value", "type"};
    var path :- GetStrAttr(input.attrs, "value");
    Success(ParsedURL("", "value", None, path, query))
  }

  /** toURL: the query map is built from the attributes and then has value and type erased. */
  method ToURL(input: Input, show: ShowUInt64) returns (r: Result<ParsedURL, FetchError>)
    ensures r == URLOf(input, show)
  {
    var query := AttrsToQuery(input.attrs, show);
    query := query - {"value"};
    query := query - {"type"};
    var path :- GetStrAttr(input.attrs, "value");
    assert query == AttrsToQuery(input.attrs, show) - {"value", "type"};
    return Success(ParsedURL("", "value", None, path, query));
  }

  /** A value input always has all the information it needs. */
  function HasAllInfo(input: Input): (r: bool)
    ensures r
  {
    true
  }

  /** getSourcePath: the value attribute. */
  function GetSourcePath(input: Input): (r: Result<string, FetchError>)
    ensures r.Success? <==> "value" in input.attrs && input.attrs["value"].StrAttr?
    ensures r.Success? ==> input.attrs["value"] == StrAttr(r.value)
  {
    GetStrAttr(input.attrs, "value")
  }

  /** An input of the value scheme whose attributes have the types the scheme uses. */
  predicate WellTyped(input: Input)
  {
    && input.attrs.Keys >= {"type", "value"}
    && input.attrs["type"] == StrAttr("value")
    && input.attrs["value"].StrAttr?
    && forall name :: name in input.attrs ==>
         && AllowedAttr(name)
         && (IsStringParam(name) ==> input.attrs[name].StrAttr?)
         && (IsIntParam(name) ==> input.attrs[name].IntAttr?)
  }

  /** Printing a well-typed input as a URL and parsing it back gives the input again,
      given that the number parser reads back what the printer writes. */
  lemma ToURLThenFromURL(input: Input, show: ShowUInt64, parse: ParseUInt64)
    requires WellTyped(input)
    requires forall n: UInt64 :: parse(show(n)) == Some(n)
    ensures URLOf(input, show).Success?
    ensures FromURL(URLOf(input, show).value, parse) == Success(Some(input))
  {
    var url := URLOf(input, show).value;
    forall name | name in url.query
      ensures ParamAttr(url, name, url.query[name], parse) == Success(input.attrs[name])
    {
      if IsIntParam(name) {
        assert parse(show(input.attrs[name].n)) == Some(input.attrs[name].n);
      }
    }
    assert BadParams(url, parse) == {};
    assert URLAttrs(url, parse) == input.attrs;
  }

  /** Parsing a value URL and printing it back gives the same path and parameters, given
      that each number is written the way the printer writes it. */
  lemma FromURLThenToURL(url: ParsedURL, show: ShowUInt64, parse: ParseUInt64, input: Input)
    requires FromURL(url, parse) == Success(Some(input))
    requires forall name :: name in url.query && IsIntParam(name) && parse(url.query[name]).Some? ==>
               show(parse(url.query[name]).value) == url.query[name]
    ensures URLOf(input, show) == Success(ParsedURL("", "value", None, url.path, url.query))
  {
    FromURLAttrs(url, parse, input);
    var query := AttrsToQuery(input.attrs, show) - {"value", "type"};
    assert query.Keys == url.query.Keys;
    forall name | name in url.query
      ensures query[name] == url.query[name]
    {
      assert query[name] == RenderAttr(input.attrs[name], show);
    }
    assert query == url.query;
  }

  /** The source path of an input parsed from a URL is the URL's path. */
  lemma SourcePathOfURL(url: ParsedURL, parse: ParseUInt64, input: Input)
    requires FromURL(url, parse) == Success(Some(input))
    ensures GetSourcePath(input) == Success(url.path)
  {
    FromURLAttrs(url, parse, input);
  }
}
