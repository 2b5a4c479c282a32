/** The API server's secrets, as the volume publisher uses them: listing and creating, each one atomic request. */
module SecretStore {
  import opened Wrappers

  datatype Key = Key(namespace: string, name: string)

  datatype Secret = Secret(kind: string, data: map<string, string>)

  type Secrets = map<Key, Secret>

  datatype Error = AlreadyExists | Other(message: string)

  /** How the network and the server treat one request: it is served, it is refused without effect, or it is served and
      its response is lost, so that the caller sees an error although the effect took place. */
  datatype Reply = Served | Refused(error: Error) | Lost(error: Error)

  /** One item of a list response. */
  datatype Item = Item(key: Key, secret: Secret)

  /** A namespaced list sees one namespace; the empty namespace lists them all. */
  predicate Listed(namespace: string, key: Key) {
    namespace == "" || key.namespace == namespace
  }

  /** Creation never overwrites. */
  function AfterCreate(secrets: Secrets, key: Key, secret: Secret, reply: Reply): Secrets {
    if reply.Refused? || key in secrets then secrets else secrets[key := secret]
  }

  function CreateError(secrets: Secrets, key: Key, reply: Reply): Option<Error> {
    match reply
    case Served => if key in secrets then Some(AlreadyExists) else None
    case Refused(error) => Some(error)
    case Lost(error) => Some(error)
  }

  class Store {
    var secrets: Secrets

    constructor (secrets: Secrets)
      ensures this.secrets == secrets
    {
      this.secrets := secrets;
    }

    /** Items come in no particular order. */
    method List(namespace: string, reply: Reply) returns (items: Result<seq<Item>, Error>)
      ensures items.Success? <==> reply.Served?
      ensures !reply.Served? ==> items.error == reply.error
      ensures items.Success? ==>
                forall item :: item in items.value <==>
                  && item.key in secrets && item.secret == secrets[item.key]
                  && (namespace != "" ==> item.key.namespace == namespace)
    {
      match reply
      case Refused(error) => return Failure(error);
      case Lost(error) => return Failure(error);
      case Served =>
        var found: seq<Item> := [];
        var rest := secrets.Keys;
        while rest != {}
          invariant rest <= secrets.Keys
          invariant forall item :: item in found <==>
            item.key in secrets && item.key !in rest && Listed(namespace, item.key) && item.secret == secrets[item.key]
          decreases rest
        {
          var key :| key in rest;
          if Listed(namespace, key) {
            found := found + [Item(key, secrets[key])];
          }
          rest := rest - {key};
        }
        return Success(found);
    }

    /** Nothing stored ever changes; the caller hears of no error exactly when its secret is the one that was put there;
        and an error does not tell whether it was. */
    method Create(key: Key, secret: Secret, reply: Reply) returns (error: Option<Error>)
      modifies this
      ensures forall k :: k in old(secrets) ==> k in secrets && secrets[k] == old(secrets)[k]
      ensures secrets.Keys == old(secrets.Keys) + if reply.Refused? then {} else {key}
      ensures key !in old(secrets) && key in secrets ==> secrets[key] == secret
      ensures error == None <==> reply.Served? && key !in old(secrets)
      ensures reply.Served? && error.Some? ==> error.value == AlreadyExists
      ensures !reply.Served? ==> error == Some(reply.error)
    {
      match reply
      case Refused(refusal) =>
        return Some(refusal);
      case Served =>
        if key in secrets {
          return Some(AlreadyExists);
        }
        secrets := secrets[key := secret];
        return None;
      case Lost(failure) =>
        if key !in secrets {
          secrets := secrets[key := secret];
        }
        return Some(failure);
    }
  }

  /** `secretExists`: a search of the listed items. */
  method SecretExists(store: Store, namespace: string, name: string, reply: Reply) returns (found: Result<bool, Error>)
    ensures found == if reply.Served? then Success(Key(namespace, name) in store.secrets) else Failure(reply.error)
  {
    var listed := store.List(namespace, reply);
    if listed.Failure? {
      return Failure(listed.error);
    }
    var items := listed.value;
    ghost var wanted := Key(namespace, name);
    assert wanted in store.secrets ==> Item(wanted, store.secrets[wanted]) in items;
    for i := 0 to |items|
      invariant forall j :: 0 <= j < i ==> items[j].key != Key(namespace, name)
    {
      if items[i].key.namespace == namespace && items[i].key.name == name {
        assert items[i] in items;
        return Success(true);
      }
    }
    return Success(false);
  }
}
