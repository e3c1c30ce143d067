/**
 * A component of a composite description: the component's document carried
 * as JSON text together with its type, name and bindings, and decoded lazily
 * into a cached document on first access.
 *
 * The JSON encoder and the type registry (type name to decoder of that type's
 * description class) are collaborators passed in as parameters; Doc stands for
 * the service-document class and Binding for the binding class.
 */
module ComponentDescriptions {
  import opened Wrappers

  /** Why a lazy decode failed: the type has no registered description class, or the JSON does not decode. */
  datatype DecodeError = UnknownType(componentType: Option<string>) | MalformedJson(message: string)

  /**
   * The decode the getter performs: look the type up in the registry and
   * decode the JSON with that type's decoder (which may yield null, for "null").
   */
  function DecodeByType<Doc>(registry: map<string, string -> Result<Option<Doc>, string>>,
                             componentType: Option<string>, json: string): (r: Result<Option<Doc>, DecodeError>)
    ensures r == Failure(UnknownType(componentType)) <==> componentType.None? || componentType.value !in registry
    ensures componentType.Some? && componentType.value in registry ==>
              match registry[componentType.value](json)
              case Success(d) => r == Success(d)
              case Failure(m) => r == Failure(MalformedJson(m))
  {
    if componentType.None? || componentType.value !in registry then Failure(UnknownType(componentType))
    else
      match registry[componentType.value](json)
      case Success(d) => Success(d)
      case Failure(m) => Failure(MalformedJson(m))
  }

  class ComponentDescription<Doc, Binding> {
    /** The decoded document; not serialized, so absent after transport. */
    var component: Option<Doc>
    var componentJson: Option<string>
    var componentType: Option<string>
    var name: Option<string>
    var bindings: Option<seq<Binding>>

    /** The full constructor: the document is both cached and encoded. */
    constructor (component: Option<Doc>, componentType: Option<string>, name: Option<string>,
                 bindings: Option<seq<Binding>>, toJson: Option<Doc> -> string)
      ensures this.component == component && componentJson == Some(toJson(component))
      ensures this.componentType == componentType && this.name == name && this.bindings == bindings
    {
      this.component := component;
      componentJson := Some(toJson(component));
      this.componentType := componentType;
      this.name := name;
      this.bindings := bindings;
    }

    /** The default constructor: every field null. */
    constructor Empty()
      ensures component.None? && componentJson.None? && componentType.None? && name.None? && bindings.None?
    {
      component := None;
      componentJson := None;
      componentType := None;
      name := None;
      bindings := None;
    }

    /** A description as it arrives over the wire: JSON and metadata, no cached document. */
    constructor FromWire(componentJson: Option<string>, componentType: Option<string>, name: Option<string>,
                         bindings: Option<seq<Binding>>)
      ensures component.None? && this.componentJson == componentJson
      ensures this.componentType == componentType && this.name == name && this.bindings == bindings
    {
      component := None;
      this.componentJson := componentJson;
      this.componentType := componentType;
      this.name := name;
      this.bindings := bindings;
    }

    /**
     * getServiceDocument: null when there is no JSON; the cached document when
     * there is one; otherwise the JSON decoded by the registry's class for the
     * type, which becomes the cache. Only the cache may change.
     */
    method GetServiceDocument(registry: map<string, string -> Result<Option<Doc>, string>>)
      returns (r: Result<Option<Doc>, DecodeError>)
      modifies this`component
      ensures componentJson.None? ==> r == Success(None) && component == old(component)
      ensures componentJson.Some? && old(component).Some? ==>
                r == Success(old(component)) && component == old(component)
      ensures componentJson.Some? && old(component).None? ==>
                r == DecodeByType(registry, componentType, componentJson.value)
                && component == (if r.Success? then r.value else None)
      ensures r.Success? ==> component == r.value || componentJson.None?
    {
      if componentJson.None? {
        return Success(None);
      }
      if component.None? {
        r := DecodeByType(registry, componentType, componentJson.value);
        if r.Success? {
          component := r.value;
        }
        return;
      }
      return Success(component);
    }

    /** updateServiceDocument: the document becomes both the cache and the JSON. */
    method UpdateServiceDocument(d: Option<Doc>, toJson: Option<Doc> -> string)
      modifies this`component, this`componentJson
      ensures component == d && componentJson == Some(toJson(d))
    {
      componentJson := Some(toJson(d));
      component := d;
    }
  }

  /**
   * Updating a description and then reading it returns the document just
   * given, whatever the type and the registry: the cached value is never decoded.
   */
  method UpdateThenGet<Doc, Binding>(c: ComponentDescription<Doc, Binding>, d: Doc,
                                     toJson: Option<Doc> -> string,
                                     registry: map<string, string -> Result<Option<Doc>, string>>)
    returns (r: Result<Option<Doc>, DecodeError>)
    modifies c
    ensures r == Success(Some(d))
    ensures c.component == Some(d) && c.componentJson == Some(toJson(Some(d)))
  {
    c.UpdateServiceDocument(Some(d), toJson);
    r := c.GetServiceDocument(registry);
  }

  /** Reading twice gives the same answer both times: the second read uses the cache or repeats the same decode. */
  method GetTwice<Doc, Binding>(c: ComponentDescription<Doc, Binding>,
                                registry: map<string, string -> Result<Option<Doc>, string>>)
    returns (first: Result<Option<Doc>, DecodeError>, second: Result<Option<Doc>, DecodeError>)
    modifies c
    ensures first == second
  {
    first := c.GetServiceDocument(registry);
    second := c.GetServiceDocument(registry);
  }

  /**
   * A description sent over the wire and read back decodes to the original
   * document when the registry's decoder for its type inverts the encoder.
   */
  method TransportRoundTrip<Doc, Binding>(d: Doc, componentType: string, name: Option<string>,
                                          bindings: Option<seq<Binding>>,
                                          toJson: Option<Doc> -> string,
                                          registry: map<string, string -> Result<Option<Doc>, string>>)
    returns (r: Result<Option<Doc>, DecodeError>)
    requires componentType in registry
    requires registry[componentType](toJson(Some(d))) == Success(Some(d))
    ensures r == Success(Some(d))
  {
    var sent := new ComponentDescription(Some(d), Some(componentType), name, bindings, toJson);
    var received := new ComponentDescription<Doc, Binding>.FromWire(sent.componentJson, sent.componentType, sent.name, sent.bindings);
    r := received.GetServiceDocument(registry);
  }
}
