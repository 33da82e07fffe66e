/** The front end's state objects (src/lib/commands.svelte.ts). Each `invoke` of a backend command
    is a parameter giving the command's outcome for the arguments it is called with; a rejected
    promise is an `Err` carrying the message. The getters and setters are the fields themselves. */
module FrontendState {
  import opened Wrappers
  import opened Records
  import opened SearchTerms

  /** The argument object of `invoke('search_files', ...)`. */
  datatype SearchRequest = SearchRequest(searchTerms: seq<string>, dbConfig: DatabaseConfig,
                                         useAndLogic: bool, searchInFilenames: bool)

  class SearchState {
    var searchTerms: string
    var results: seq<FileResult>
    var isLoading: bool
    var error: string
    var useAndLogic: bool
    var searchInFilenames: bool

    constructor ()
      ensures searchTerms == "" && results == [] && !isLoading && error == ""
      ensures useAndLogic && searchInFilenames
    {
      searchTerms := "";
      results := [];
      isLoading := false;
      error := "";
      useAndLogic := true;
      searchInFilenames := true;
    }

    /** Runs the search for the current text. Without search terms nothing happens; otherwise the
        backend is asked with the tokenized terms and the current options, and the state ends
        not loading, holding either the returned records or the error message. */
    method Search(dbConfig: DatabaseConfig, invoke: SearchRequest -> Result<seq<FileResult>, string>)
      modifies this
      ensures !HasSearchTerms(old(searchTerms)) ==>
        searchTerms == old(searchTerms) && results == old(results) && isLoading == old(isLoading) &&
        error == old(error) && useAndLogic == old(useAndLogic) && searchInFilenames == old(searchInFilenames)
      ensures HasSearchTerms(old(searchTerms)) ==>
        var outcome := invoke(SearchRequest(SearchTermsArray(old(searchTerms)), dbConfig, old(useAndLogic), old(searchInFilenames)));
        !isLoading &&
        searchTerms == old(searchTerms) && useAndLogic == old(useAndLogic) && searchInFilenames == old(searchInFilenames) &&
        (outcome.Ok? ==> results == outcome.value && error == "") &&
        (outcome.Err? ==> results == [] && error == outcome.error)
    {
      if !HasSearchTerms(searchTerms) {
        return;
      }
      isLoading := true;
      error := "";
      results := [];
      var outcome := invoke(SearchRequest(SearchTermsArray(searchTerms), dbConfig, useAndLogic, searchInFilenames));
      match outcome {
        case Ok(found) => results := found;
        case Err(message) => error := message;
      }
      isLoading := false;
    }

    /** Clears the text, the results and the error; the two search options are kept. */
    method Reset()
      modifies this
      ensures searchTerms == "" && results == [] && error == "" && !isLoading
      ensures useAndLogic == old(useAndLogic) && searchInFilenames == old(searchInFilenames)
    {
      searchTerms := "";
      results := [];
      error := "";
      isLoading := false;
    }
  }

  /** The values `connectionStatus` can take. */
  datatype ConnectionStatus = Connected | Disconnected | Unknown | Testing

  const DefaultConfig := DatabaseConfig("localhost", 5432, "postgres", "", "nas_scanner")

  /** The status a connection test leaves behind for the backend's answer. */
  function StatusAfterTest(outcome: Result<bool, string>): (status: ConnectionStatus)
    ensures status == Connected <==> outcome == Ok(true)
    ensures status != Connected ==> status == Disconnected
  {
    match outcome
    case Ok(connected) => if connected then Connected else Disconnected
    case Err(_) => Disconnected
  }

  class SettingsState {
    var config: DatabaseConfig
    var isOpen: bool
    var isSaving: bool
    var connectionStatus: ConnectionStatus

    /** `loaded` is what the stored settings gave (or the defaults). */
    constructor (loaded: DatabaseConfig)
      ensures config == loaded && !isOpen && !isSaving && connectionStatus == Unknown
    {
      config := loaded;
      isOpen := false;
      isSaving := false;
      connectionStatus := Unknown;
    }

    method Open()
      modifies this`isOpen
      ensures isOpen
    {
      isOpen := true;
    }

    method Close()
      modifies this`isOpen
      ensures !isOpen
    {
      isOpen := false;
    }

    /** Asks the backend whether `config` connects. The status ends `Connected` exactly when the
        answer is true, which is also what is returned; any other answer, a thrown error
        included, leaves `Disconnected` and returns false. */
    method TestConnection(invoke: DatabaseConfig -> Result<bool, string>) returns (connected: bool)
      modifies this`connectionStatus
      ensures connectionStatus == StatusAfterTest(invoke(config))
      ensures connected <==> connectionStatus == Connected
      ensures connectionStatus == Connected || connectionStatus == Disconnected
    {
      connectionStatus := Testing;
      match invoke(config) {
        case Ok(result) =>
          connectionStatus := if result then Connected else Disconnected;
          return result;
        case Err(_) =>
          connectionStatus := Disconnected;
          return false;
      }
    }

    /** Saves the settings, closes the dialog and tests the connection. */
    method Save(invoke: DatabaseConfig -> Result<bool, string>)
      modifies this
      ensures config == old(config) && !isSaving && !isOpen
      ensures connectionStatus == StatusAfterTest(invoke(config))
    {
      isSaving := true;
      isSaving := false;
      Close();
      var _ := TestConnection(invoke);
    }

    /** Back to the default settings, with the connection status unknown again. */
    method Reset()
      modifies this`config, this`connectionStatus
      ensures config == DefaultConfig && connectionStatus == Unknown
    {
      config := DefaultConfig;
      connectionStatus := Unknown;
    }
  }

  /** `i` is the position of the first configuration whose key is `key`. */
  predicate IsFirstWithKey(configurations: seq<Configuration>, key: string, i: int) {
    0 <= i < |configurations| && configurations[i].key == key &&
    forall j :: 0 <= j < i ==> configurations[j].key != key
  }

  /** Index of the first configuration with `key` (`Array.prototype.find`). */
  function FindByKey(configurations: seq<Configuration>, key: string): (found: Option<nat>)
    ensures found.Some? ==> IsFirstWithKey(configurations, key, found.value)
    ensures found.None? <==> forall j :: 0 <= j < |configurations| ==> configurations[j].key != key
    decreases |configurations|
  {
    if configurations == [] then None
    else if configurations[0].key == key then Some(0)
    else match FindByKey(configurations[1..], key)
      case None => None
      case Some(i) => Some(i + 1)
  }

  /** `text || ''` for a nullable string. */
  function OrEmpty(text: Option<string>): string {
    match text
    case None => ""
    case Some(t) => t
  }

  class ConfigurationState {
    var configurations: seq<Configuration>
    var isLoading: bool
    var isSaving: bool
    var error: string

    constructor ()
      ensures configurations == [] && !isLoading && !isSaving && error == ""
    {
      configurations := [];
      isLoading := false;
      isSaving := false;
      error := "";
    }

    /** Loads the table; on failure the previous list stays and the error is shown. */
    method LoadConfigurations(dbConfig: DatabaseConfig, invoke: DatabaseConfig -> Result<seq<Configuration>, string>)
      modifies this`configurations, this`isLoading, this`error
      ensures !isLoading
      ensures invoke(dbConfig).Ok? ==> configurations == invoke(dbConfig).value && error == ""
      ensures invoke(dbConfig).Err? ==> configurations == old(configurations) && error == invoke(dbConfig).error
    {
      isLoading := true;
      error := "";
      match invoke(dbConfig) {
        case Ok(configs) => configurations := configs;
        case Err(message) => error := message;
      }
      isLoading := false;
    }

    /** Updates one value and, when that succeeds, reloads the table. A failed reload is reported
        by the reload itself and does not count as a failed update. */
    method UpdateConfiguration(dbConfig: DatabaseConfig, key: string, value: string,
                               update: (DatabaseConfig, string, string) -> Result<(), string>,
                               load: DatabaseConfig -> Result<seq<Configuration>, string>)
      modifies this
      ensures !isSaving
      ensures update(dbConfig, key, value).Err? ==>
        configurations == old(configurations) && isLoading == old(isLoading) && error == update(dbConfig, key, value).error
      ensures update(dbConfig, key, value).Ok? ==> !isLoading
      ensures update(dbConfig, key, value).Ok? && load(dbConfig).Ok? ==>
        configurations == load(dbConfig).value && error == ""
      ensures update(dbConfig, key, value).Ok? && load(dbConfig).Err? ==>
        configurations == old(configurations) && error == load(dbConfig).error
    {
      isSaving := true;
      error := "";
      match update(dbConfig, key, value) {
        case Ok(_) => LoadConfigurations(dbConfig, load);
        case Err(message) => error := message;
      }
      isSaving := false;
    }

    /** The value of the first configuration with `key`, or `''` when there is none. */
    function GetConfigurationValue(key: string): (value: string)
      reads this
      ensures (forall j :: 0 <= j < |configurations| ==> configurations[j].key != key) ==> value == ""
      ensures forall i :: IsFirstWithKey(configurations, key, i) ==> value == configurations[i].value
    {
      match FindByKey(configurations, key)
      case None => ""
      case Some(i) => configurations[i].value
    }

    /** The description of the first configuration with `key`; `''` when there is none or it is null. */
    function GetConfigurationDescription(key: string): (description: string)
      reads this
      ensures (forall j :: 0 <= j < |configurations| ==> configurations[j].key != key) ==> description == ""
      ensures forall i :: IsFirstWithKey(configurations, key, i) ==> description == OrEmpty(configurations[i].description)
    {
      match FindByKey(configurations, key)
      case None => ""
      case Some(i) => OrEmpty(configurations[i].description)
    }
  }
}
