/**
 * The process-wide connection registry: three maps keyed by alias (the
 * settings registered for it, its live Motor client, its default database
 * name) and the operations that register, lazily open, reuse and tear down
 * connections.
 *
 * The Motor client is an abstract value. Whether the driver accepts the
 * options handed to its constructor, and whether `open_sync` succeeds, are
 * outcomes of the environment and come in as the parameters `constructs`
 * and `opens`.
 */
module Connection {
  import opened Values

  const DefaultConnectionName := "default"
  const FrameworkTornado := "tornado"
  const FrameworkAsyncio := "asyncio"

  /** Keyword arguments handed to `connect` / `register_connection`. */
  type Settings = map<string, Value>

  datatype ClientClass =
    | MotorClient
    | MotorReplicaSetClient
    | AsyncIOMotorClient
    | AsyncIOMotorReplicaSetClient

  datatype DatabaseClass = TornadoDatabase | AsyncioDatabase

  datatype ConnError =
    | UnknownAlias(alias: string)   // KeyError: no settings registered for the alias
    | InvalidFramework              // ValueError: framework is neither tornado nor asyncio
    | CannotConnect(alias: string)  // ConnectionError: the client could not be built or opened
    | InvalidDatabaseName           // TypeError: getattr on the client with a non-string name

  /** A Motor client: its class, the options it was built with, and whether it is open. */
  datatype Client = Client(kind: ClientClass, options: Settings, connected: bool)

  /** What `get_connection` hands back: a database of one client, in the framework's wrapper. */
  datatype Database = Database(kind: DatabaseClass, client: Client, name: string)

  /** The pair (client class, replica-set client class) of a framework. */
  function ClientClasses(framework: string): (r: Result<(ClientClass, ClientClass), ConnError>)
    ensures r.Ok? <==> framework == FrameworkTornado || framework == FrameworkAsyncio
    ensures r.Err? ==> r.error == InvalidFramework
    ensures framework == FrameworkTornado ==> r.value == (MotorClient, MotorReplicaSetClient)
    ensures framework == FrameworkAsyncio ==> r.value == (AsyncIOMotorClient, AsyncIOMotorReplicaSetClient)
  {
    if framework == FrameworkTornado then Ok((MotorClient, MotorReplicaSetClient))
    else if framework == FrameworkAsyncio then Ok((AsyncIOMotorClient, AsyncIOMotorReplicaSetClient))
    else Err(InvalidFramework)
  }

  /** The Database wrapper class of a framework. */
  function DatabaseClassOf(framework: string): (r: Result<DatabaseClass, ConnError>)
    ensures r.Ok? <==> framework == FrameworkTornado || framework == FrameworkAsyncio
    ensures r.Err? ==> r.error == InvalidFramework
    ensures framework == FrameworkTornado ==> r.value == TornadoDatabase
    ensures framework == FrameworkAsyncio ==> r.value == AsyncioDatabase
  {
    if framework == FrameworkTornado then Ok(TornadoDatabase)
    else if framework == FrameworkAsyncio then Ok(AsyncioDatabase)
    else Err(InvalidFramework)
  }

  /** The registered 'name' setting, or None when there is none (`pop('name', None)`). */
  function NameSetting(stored: Settings): Value
  {
    if "name" in stored then stored["name"] else Null
  }

  /**
   * The options the client is built with, from a copy of the stored settings:
   * 'name' goes; when 'replicaSet' is present 'port' goes too, and so does a
   * 'replicaSet' that is not a string. Everything else is passed through.
   */
  function ClientOptions(stored: Settings): (options: Settings)
    ensures "name" !in options
    ensures "port" in options <==> "port" in stored && "replicaSet" !in stored
    ensures "replicaSet" in options <==> "replicaSet" in stored && stored["replicaSet"].Text?
    ensures forall k :: k in options ==> k in stored && options[k] == stored[k]
    ensures forall k :: k in stored && k != "name" && k != "port" && k != "replicaSet" ==> k in options
  {
    var withoutName := stored - {"name"};
    if "replicaSet" in withoutName then
      var withoutPort := withoutName - {"port"};
      if withoutPort["replicaSet"].Text? then withoutPort else withoutPort - {"replicaSet"}
    else
      withoutName
  }

  /**
   * The database name `get_connection` asks the client for: an explicit name
   * wins, None falls back to the alias's default, and anything that is not a
   * string makes the attribute lookup fail.
   */
  function DatabaseName(requested: Value, defaultDb: Value): (r: Result<string, ConnError>)
    ensures requested.Text? ==> r == Ok(requested.s)
    ensures requested.Null? ==> (r.Ok? <==> defaultDb.Text?) && (r.Ok? ==> r.value == defaultDb.s)
    ensures r.Err? ==> r.error == InvalidDatabaseName
    ensures !requested.Null? && !requested.Text? ==> r.Err?
  {
    var name := if requested.Null? then defaultDb else requested;
    if name.Text? then Ok(name.s) else Err(InvalidDatabaseName)
  }

  /** The tail of `get_connection` once the client is open: pick the database, then wrap it. */
  function Opened(client: Client, requested: Value, defaultDb: Value, framework: string): (r: Result<Database, ConnError>)
    ensures r.Ok? <==> DatabaseName(requested, defaultDb).Ok? && DatabaseClassOf(framework).Ok?
    ensures r.Ok? ==> r.value == Database(DatabaseClassOf(framework).value, client, DatabaseName(requested, defaultDb).value)
    ensures DatabaseName(requested, defaultDb).Err? ==> r == Err(InvalidDatabaseName)
    ensures DatabaseName(requested, defaultDb).Ok? && DatabaseClassOf(framework).Err? ==> r == Err(InvalidFramework)
  {
    match DatabaseName(requested, defaultDb)
    case Err(e) => Err(e)
    case Ok(name) =>
      match DatabaseClassOf(framework)
      case Err(e) => Err(e)
      case Ok(kind) => Ok(Database(kind, client, name))
  }

  /** The three module-level maps `_connection_settings`, `_connections` and `_default_dbs`. */
  class Registry {
    var settings: map<string, Settings>
    var connections: map<string, Client>
    var defaultDbs: map<string, Value>

    /** Settings and default databases are registered together; a client exists only for a registered alias. */
    ghost predicate Valid()
      reads this
    {
      settings.Keys == defaultDbs.Keys && connections.Keys <= settings.Keys
    }

    constructor ()
      ensures Valid()
      ensures settings == map[] && connections == map[] && defaultDbs == map[]
    {
      settings, connections, defaultDbs := map[], map[], map[];
    }

    /** `register_connection`: record the settings and default database of one alias. */
    method RegisterConnection(db: Value, alias: string, kwargs: Settings)
      requires Valid()
      modifies this
      ensures Valid()
      ensures settings == old(settings)[alias := kwargs]
      ensures defaultDbs == old(defaultDbs)[alias := db]
      ensures connections == old(connections)
    {
      settings := settings[alias := kwargs];
      defaultDbs := defaultDbs[alias := db];
    }

    /** `cleanup`: forget every alias. */
    method Cleanup()
      modifies this
      ensures Valid()
      ensures settings == map[] && connections == map[] && defaultDbs == map[]
    {
      connections := map[];
      settings := map[];
      defaultDbs := map[];
    }

    /**
     * `get_connection`: build the alias's client on first use, open it when it
     * is not open, and return the requested database of it.
     */
    method GetConnection(alias: string, db: Value, framework: string, constructs: bool, opens: bool)
      returns (r: Result<Database, ConnError>)
      requires Valid()
      modifies this
      ensures Valid()
      ensures settings == old(settings) && defaultDbs == old(defaultDbs)
      // other aliases are left alone
      ensures connections.Keys <= old(connections).Keys + {alias}
      ensures forall a :: a in old(connections) && a != alias ==> a in connections && connections[a] == old(connections)[a]
      // a client is built only when the alias has none, and only from its stored settings
      ensures alias !in old(connections) ==>
        (alias in connections <==> alias in settings && ClientClasses(framework).Ok? && constructs)
      ensures alias !in old(connections) && alias in connections ==>
        connections[alias] == Client(ClientClasses(framework).value.0, ClientOptions(settings[alias]), opens)
      // a live client is reused, and opened when it is not open
      ensures alias in old(connections) ==>
        alias in connections && connections[alias] == old(connections)[alias].(connected := old(connections)[alias].connected || opens)
      // errors before and while building the client
      ensures alias !in old(connections) && alias !in settings ==> r == Err(UnknownAlias(alias))
      ensures alias !in old(connections) && alias in settings && ClientClasses(framework).Err? ==> r == Err(InvalidFramework)
      ensures alias !in old(connections) && alias in settings && ClientClasses(framework).Ok? && !constructs ==>
        r == Err(CannotConnect(alias))
      ensures alias in connections && !connections[alias].connected ==> r == Err(CannotConnect(alias))
      // with an open client: on the creating call the registered 'name' replaces `db`
      ensures alias in connections && connections[alias].connected ==>
        r == Opened(connections[alias], if alias in old(connections) then db else NameSetting(settings[alias]),
                    defaultDbs[alias], framework)
    {
      var requested := db;
      if alias !in connections {
        if alias !in settings {
          return Err(UnknownAlias(alias));
        }
        var options := settings[alias];
        requested := NameSetting(options);
        options := options - {"name"};
        var classes := ClientClasses(framework);
        if classes.Err? {
          return Err(classes.error);
        }
        var connectionClass := classes.value.0;
        if "replicaSet" in options {
          options := options - {"port"};
          if !options["replicaSet"].Text? {
            options := options - {"replicaSet"};
          }
        }
        if !constructs {
          return Err(CannotConnect(alias));
        }
        connections := connections[alias := Client(connectionClass, options, false)];
      }
      if !connections[alias].connected {
        if !opens {
          return Err(CannotConnect(alias));
        }
        connections := connections[alias := connections[alias].(connected := true)];
      }
      var name := DatabaseName(requested, defaultDbs[alias]);
      if name.Err? {
        return Err(name.error);
      }
      var kind := DatabaseClassOf(framework);
      if kind.Err? {
        return Err(kind.error);
      }
      r := Ok(Database(kind.value, connections[alias], name.value));
    }

    /**
     * `connect`: register the settings, with 'name' set to `db`, unless the
     * alias already has a live client (then the new settings are ignored),
     * and return `get_connection(alias, db)`.
     */
    method Connect(db: Value, alias: string, framework: string, kwargs: Settings, constructs: bool, opens: bool)
      returns (r: Result<Database, ConnError>)
      requires Valid()
      modifies this
      ensures Valid()
      ensures alias in old(connections) ==> settings == old(settings) && defaultDbs == old(defaultDbs)
      ensures alias !in old(connections) ==>
        settings == old(settings)[alias := kwargs["name" := db]] && defaultDbs == old(defaultDbs)[alias := db]
      ensures connections.Keys <= old(connections).Keys + {alias}
      ensures forall a :: a in old(connections) && a != alias ==> a in connections && connections[a] == old(connections)[a]
      ensures alias !in old(connections) ==> (alias in connections <==> ClientClasses(framework).Ok? && constructs)
      ensures alias !in old(connections) && alias in connections ==>
        connections[alias] == Client(ClientClasses(framework).value.0, ClientOptions(kwargs["name" := db]), opens)
      ensures alias in old(connections) ==>
        alias in connections && connections[alias] == old(connections)[alias].(connected := old(connections)[alias].connected || opens)
      ensures alias !in old(connections) && ClientClasses(framework).Err? ==> r == Err(InvalidFramework)
      ensures alias !in old(connections) && ClientClasses(framework).Ok? && !constructs ==> r == Err(CannotConnect(alias))
      ensures alias in connections && !connections[alias].connected ==> r == Err(CannotConnect(alias))
      ensures alias in connections && connections[alias].connected ==>
        r == Opened(connections[alias], db, defaultDbs[alias], framework)
    {
      if alias !in connections {
        RegisterConnection(db, alias, kwargs["name" := db]);
      }
      r := GetConnection(alias, db, framework, constructs, opens);
    }

    /**
     * `disconnect`: for an alias with a live client, fetch its default
     * database (which may open the client, and may fail), then drop the alias
     * from all three maps. An alias without a client is left as it is.
     */
    method Disconnect(alias: string, framework: string, opens: bool) returns (r: Result<(), ConnError>)
      requires Valid()
      modifies this
      ensures Valid()
      ensures alias !in old(connections) ==>
        r == Ok(()) && settings == old(settings) && connections == old(connections) && defaultDbs == old(defaultDbs)
      ensures alias in old(connections) ==>
        var client := old(connections)[alias];
        var reached := if client.connected || opens
                       then Opened(client.(connected := true), Null, old(defaultDbs)[alias], framework)
                       else Err(CannotConnect(alias));
        (reached.Ok? ==>
          r == Ok(()) &&
          settings == old(settings) - {alias} &&
          connections == old(connections) - {alias} &&
          defaultDbs == old(defaultDbs) - {alias}) &&
        (reached.Err? ==>
          r == Err(reached.error) &&
          settings == old(settings) && defaultDbs == old(defaultDbs) &&
          connections == old(connections)[alias := client.(connected := client.connected || opens)])
    {
      if alias in connections {
        var database := GetConnection(alias, Null, framework, true, opens);
        if database.Err? {
          return Err(database.error);
        }
        connections := connections - {alias};
        settings := settings - {alias};
        defaultDbs := defaultDbs - {alias};
      }
      r := Ok(());
    }
  }
}
