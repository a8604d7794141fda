/** The multi-controller answering flow of `tasks/query.py`.

    A *controller* is a named search configuration. The metadata maps each
    controller id to its record, and the reserved key `default_index` names
    the controller used when the caller picks none. `SearchManager` loads
    that metadata and opens one search client per controller. The pure part
    resolves a controller, fetches snippets, and either answers directly or
    composes a prompt for the completion provider.

    The search provider and the completion provider are parameters. A search
    client is identified by the index it is bound to. */
module Query {
  import opened Strings

  /** The metadata key that names the default controller. */
  const Reserved := "default_index"
  /** The default controller used when the metadata has no `default_index` entry. */
  const FallbackDefault := "apc-j140-bin-005c"
  /** The number of hits requested from the search provider. */
  const TopK: nat := 10
  /** The output budget passed to the completion provider. */
  const MaxTokens: nat := 150
  /** A single snippet with this prefix is taken to be a resolution error. */
  const ErrorPrefix := "Controller"
  /** The reply used when the search finds nothing. */
  const NoInformation := "I don't have enough information to answer that question. Could you please provide more specific details?"
  /** The closing instruction of the prompt. */
  const Instructions := "Answer the question based on the context provided. If the answer is not in the context, ask the user to provide more specific details."

  datatype Option<T> = None | Some(value: T)

  /** A controller's record in the metadata. */
  datatype ControllerConfig = ControllerConfig(indexName: string, name: string, description: string, promptName: string)

  /** A metadata value: a controller record, or the plain string stored
      under `default_index`. */
  datatype Entry = Controller(config: ControllerConfig) | Text(text: string)

  /** A search client, bound to one index. */
  datatype SearchClient = SearchClient(indexName: string)

  /** One search hit; only its `content` field is used. */
  datatype Hit = Hit(content: string)

  /** The exceptions the flow can raise. Only `ValueError` is caught, by
      `search_documents`. `KeyError` is a failed dictionary lookup.
      `TypeError` is the string under `default_index` indexed as a record. */
  datatype Fault = ValueError(message: string) | KeyError(key: string) | TypeError(key: string)

  datatype Result<T> = Ok(value: T) | Err(fault: Fault)

  /** Search provider: (client, query, top) to the ranked hits. */
  type SearchProvider = (SearchClient, string, nat) -> seq<Hit>

  /** Completion provider: (system message, user message, max_tokens) to the
      content of the first choice. */
  type CompletionProvider = (string, string, nat) -> string

  /** Python truthiness of an optional string: present and non-empty. */
  predicate Truthy(o: Option<string>)
  {
    o.Some? && o.value != ""
  }

  /** The metadata shape startup can load: `default_index`, if present,
      holds a string, and every other key holds a controller record. */
  ghost predicate WellShaped(metadata: map<string, Entry>)
  {
    forall k :: k in metadata ==> (metadata[k].Text? <==> k == Reserved)
  }

  /** The default controller: the `default_index` entry, or the fixed
      fallback id when there is none. */
  function DefaultIndexOf(metadata: map<string, Entry>): (d: string)
    requires WellShaped(metadata)
    ensures Reserved in metadata ==> metadata[Reserved] == Text(d)
    ensures Reserved !in metadata ==> d == FallbackDefault
  {
    if Reserved in metadata then metadata[Reserved].text else FallbackDefault
  }

  /** The registry holds one client per controller, bound to its `index_name`. */
  ghost predicate RegistryMatches(metadata: map<string, Entry>, clients: map<string, SearchClient>)
  {
    && clients.Keys == metadata.Keys - {Reserved}
    && forall k :: k in clients ==> metadata[k].Controller? && clients[k] == SearchClient(metadata[k].config.indexName)
  }

  /** The state a `SearchManager` holds once it is set up. */
  datatype ManagerState = ManagerState(
    metadata: map<string, Entry>,
    defaultIndex: string,
    systemPrompt: string,
    searchClients: map<string, SearchClient>)
  {
    ghost predicate Valid()
    {
      && WellShaped(metadata)
      && defaultIndex == DefaultIndexOf(metadata)
      && RegistryMatches(metadata, searchClients)
    }
  }

  /** The process-wide manager, built once at startup. The metadata file and
      the system-prompt file are passed in already read. */
  class SearchManager {
    var metadata: map<string, Entry>
    var defaultIndex: string
    var systemPrompt: string
    var searchClients: map<string, SearchClient>

    function State(): ManagerState
      reads this
    {
      ManagerState(metadata, defaultIndex, systemPrompt, searchClients)
    }

    ghost predicate Valid()
      reads this
    {
      State().Valid()
    }

    /** `__init__`: load the metadata, then set the clients up. */
    constructor (metadataFile: map<string, Entry>, promptFile: string)
      requires WellShaped(metadataFile)
      ensures Valid()
      ensures metadata == metadataFile
      ensures defaultIndex == DefaultIndexOf(metadataFile)
      ensures systemPrompt == Strip(promptFile)
    {
      new;
      LoadIndexMetadata(metadataFile);
      SetupClients(promptFile);
    }

    /** `load_index_metadata`: keep the metadata and pick the default
        controller, falling back to a fixed id. */
    method LoadIndexMetadata(metadataFile: map<string, Entry>)
      requires WellShaped(metadataFile)
      modifies this
      ensures metadata == metadataFile
      ensures Reserved in metadataFile ==> defaultIndex == metadataFile[Reserved].text
      ensures Reserved !in metadataFile ==> defaultIndex == FallbackDefault
      ensures systemPrompt == old(systemPrompt) && searchClients == old(searchClients)
    {
      metadata := metadataFile;
      defaultIndex := DefaultIndexOf(metadataFile);
    }

    /** `setup_clients`: keep the stripped system prompt and open one search
        client per metadata key except `default_index`. */
    method SetupClients(promptFile: string)
      requires WellShaped(metadata)
      modifies this
      ensures metadata == old(metadata) && defaultIndex == old(defaultIndex)
      ensures systemPrompt == Strip(promptFile)
      ensures searchClients.Keys == metadata.Keys - {Reserved}
      ensures forall k :: k in searchClients ==> searchClients[k] == SearchClient(metadata[k].config.indexName)
    {
      systemPrompt := Strip(promptFile);
      searchClients := map[];
      var pending := metadata.Keys;
      while pending != {}
        invariant metadata == old(metadata) && defaultIndex == old(defaultIndex)
        invariant systemPrompt == Strip(promptFile)
        invariant pending <= metadata.Keys
        invariant searchClients.Keys == metadata.Keys - pending - {Reserved}
        invariant forall k :: k in searchClients ==> metadata[k].Controller? && searchClients[k] == SearchClient(metadata[k].config.indexName)
        decreases pending
      {
        var controllerId :| controllerId in pending;
        if controllerId != Reserved {
          searchClients := searchClients[controllerId := SearchClient(metadata[controllerId].config.indexName)];
        }
        pending := pending - {controllerId};
      }
    }
  }

  /** `key` names a controller: a metadata key other than `default_index`. */
  predicate IsController(m: ManagerState, key: string)
  {
    key in m.metadata && key != Reserved
  }

  /** The id a lookup uses: the caller's if truthy, otherwise the default. */
  function Effective(m: ManagerState, controllerId: Option<string>): (id: string)
  {
    if Truthy(controllerId) then controllerId.value else m.defaultIndex
  }

  /** The caller named a controller that resolution rejects. */
  predicate Unsupported(m: ManagerState, controllerId: Option<string>)
  {
    Truthy(controllerId) && !IsController(m, controllerId.value)
  }

  /** The caller named none, and the default is not in the registry. */
  predicate DefaultMissing(m: ManagerState, controllerId: Option<string>)
  {
    !Truthy(controllerId) && !IsController(m, m.defaultIndex)
  }

  /** The client opened at startup for controller `key`. */
  function ClientFor(m: ManagerState, key: string): (c: SearchClient)
    requires m.Valid() && IsController(m, key)
    ensures key in m.searchClients && m.searchClients[key] == c
  {
    SearchClient(m.metadata[key].config.indexName)
  }

  /** The text of the `ValueError` raised for an unsupported controller. */
  function UnsupportedMessage(controllerId: string): (msg: string)
    ensures StartsWith(msg, ErrorPrefix)
    ensures |msg| > |ErrorPrefix|
  {
    "Controller " + controllerId + " not supported"
  }

  /** `SearchManager.get_search_client`. No id selects the default, which
      only the registry lookup can reject. A named id is rejected with a
      `ValueError` exactly when it is not a controller. Otherwise the result
      is the client bound to that controller's index. */
  function GetSearchClient(m: ManagerState, controllerId: Option<string>): (r: Result<SearchClient>)
    requires m.Valid()
    ensures r.Ok? <==> IsController(m, Effective(m, controllerId))
    ensures Unsupported(m, controllerId) <==> r.Err? && r.fault.ValueError?
    ensures DefaultMissing(m, controllerId) <==> r.Err? && r.fault.KeyError?
    ensures Unsupported(m, controllerId) ==> r.fault == ValueError(UnsupportedMessage(controllerId.value))
    ensures DefaultMissing(m, controllerId) ==> r.fault == KeyError(m.defaultIndex)
    ensures r.Ok? ==>
      && IsController(m, Effective(m, controllerId))
      && r.value == SearchClient(m.metadata[Effective(m, controllerId)].config.indexName)
  {
    if !Truthy(controllerId) then
      if m.defaultIndex in m.searchClients then Ok(m.searchClients[m.defaultIndex])
      else Err(KeyError(m.defaultIndex))
    else if controllerId.value !in m.metadata || controllerId.value == Reserved then
      Err(ValueError(UnsupportedMessage(controllerId.value)))
    else
      Ok(m.searchClients[controllerId.value])
  }

  /** `metadata[key]` read as a controller record. */
  function ConfigAt(metadata: map<string, Entry>, key: string): (r: Result<ControllerConfig>)
    ensures r.Ok? <==> key in metadata && metadata[key].Controller?
    ensures r.Ok? ==> metadata[key] == Controller(r.value)
    ensures key !in metadata ==> r == Err(KeyError(key))
    ensures key in metadata && metadata[key].Text? ==> r == Err(TypeError(key))
  {
    if key !in metadata then Err(KeyError(key))
    else match metadata[key]
      case Controller(config) => Ok(config)
      case Text(_) => Err(TypeError(key))
  }

  /** `SearchManager.get_prompt_name`. Unlike resolution, it does not reject
      `default_index` itself: that id fails as a `TypeError` and an unknown
      one as a `KeyError`. It never raises `ValueError`. */
  function GetPromptName(m: ManagerState, controllerId: Option<string>): (r: Result<string>)
    requires m.Valid()
    ensures r.Ok? <==> IsController(m, Effective(m, controllerId))
    ensures r.Ok? ==> r.value == m.metadata[Effective(m, controllerId)].config.promptName
    ensures Effective(m, controllerId) == Reserved && Reserved in m.metadata ==> r == Err(TypeError(Reserved))
    ensures Effective(m, controllerId) !in m.metadata ==> r == Err(KeyError(Effective(m, controllerId)))
  {
    match ConfigAt(m.metadata, Effective(m, controllerId))
    case Ok(config) => Ok(config.promptName)
    case Err(fault) => Err(fault)
  }

  /** The `content` field of every hit, in provider order. */
  function Contents(hits: seq<Hit>): (docs: seq<string>)
    ensures |docs| == |hits|
    ensures forall i :: 0 <= i < |hits| ==> docs[i] == hits[i].content
  {
    seq(|hits|, i requires 0 <= i < |hits| => hits[i].content)
  }

  /** `search_documents`. An unsupported controller gives the one-element
      list holding the error text. A missing default propagates as a fault.
      Otherwise the result is the contents of the top-10 hits from that
      controller's index, in provider order. */
  function SearchDocuments(m: ManagerState, search: SearchProvider, query: string, controllerId: Option<string>): (r: Result<seq<string>>)
    requires m.Valid()
    ensures Unsupported(m, controllerId) ==> r == Ok([UnsupportedMessage(controllerId.value)])
    ensures DefaultMissing(m, controllerId) ==> r == Err(KeyError(m.defaultIndex))
    ensures IsController(m, Effective(m, controllerId)) ==>
      r == Ok(Contents(search(ClientFor(m, Effective(m, controllerId)), query, TopK)))
  {
    match GetSearchClient(m, controllerId)
    case Ok(client) => Ok(Contents(search(client, query, TopK)))
    case Err(ValueError(message)) => Ok([message])
    case Err(fault) => Err(fault)
  }

  /** The controller annotation of the prompt: a new line reading
      "Controller: " and the name, then the description in parentheses. The
      three clauses together fix the text exactly. */
  function ControllerLine(config: ControllerConfig): (r: string)
    ensures StartsWith(r, "\nController: " + config.name + " (")
    ensures EndsWith(r, config.description + ")")
    ensures |r| == |"\nController: " + config.name + " ("| + |config.description + ")"|
  {
    "\nController: " + config.name + " (" + config.description + ")"
  }

  /** Lines 89-92: empty unless an id was given. For a given id this is a
      second metadata lookup, and it fails unless the id is a controller. */
  function ControllerNote(metadata: map<string, Entry>, controllerId: Option<string>): (r: Result<string>)
    ensures r == Ok("") <==> !Truthy(controllerId)
    ensures Truthy(controllerId) ==>
      (r.Ok? <==> controllerId.value in metadata && metadata[controllerId.value].Controller?)
    ensures Truthy(controllerId) && r.Ok? ==> r.value == ControllerLine(metadata[controllerId.value].config)
  {
    if Truthy(controllerId) then
      match ConfigAt(metadata, controllerId.value)
      case Ok(config) => Ok(ControllerLine(config))
      case Err(fault) => Err(fault)
    else Ok("")
  }

  /** Line 94: the user annotation, present exactly when both ids are truthy. */
  function UserNote(userId: Option<string>, sessionId: Option<string>): (r: string)
    ensures r != "" <==> Truthy(userId) && Truthy(sessionId)
    ensures r != "" ==> r == "\nUser ID: " + userId.value + "\nSession ID: " + sessionId.value
  {
    if Truthy(userId) && Truthy(sessionId) then "\nUser ID: " + userId.value + "\nSession ID: " + sessionId.value
    else ""
  }

  /** The user message sent to the completion provider, character for
      character: the context line (snippets, then the annotations), then the
      question, then the instruction. The three clauses fix the text exactly. */
  function PromptText(context: string, controllerInfo: string, userContext: string, question: string): (r: string)
    ensures StartsWith(r, "\n    Context: " + context + controllerInfo + userContext)
    ensures EndsWith(r, "\n\n    Question: " + question + "\n\n    " + Instructions + "\n    ")
    ensures |r| == |"\n    Context: " + context + controllerInfo + userContext|
                 + |"\n\n    Question: " + question + "\n\n    " + Instructions + "\n    "|
  {
    var contextLine := "\n    Context: " + context + controllerInfo + userContext;
    var rest := "\n\n    Question: " + question + "\n\n    " + Instructions + "\n    ";
    contextLine + rest
  }

  /** One call to the completion provider. */
  datatype CompletionRequest = CompletionRequest(system: string, user: string, maxTokens: nat)

  /** How `answer_question` proceeds once it has the snippets: reply with a
      fixed text, or consult the completion provider. */
  datatype Plan = Reply(text: string) | Consult(request: CompletionRequest)

  /** Lines 82-111 of `answer_question`. A lone snippet starting with
      "Controller" is echoed. Nothing found gives the fixed sentence. Any
      other snippets become one completion request, with the system prompt
      and a budget of 150 tokens. That step fails only if the second metadata
      lookup does. */
  function PlanAnswer(m: ManagerState, docs: seq<string>, question: string,
                      userId: Option<string>, sessionId: Option<string>, controllerId: Option<string>): (r: Result<Plan>)
    ensures |docs| == 1 && StartsWith(docs[0], ErrorPrefix) ==> r == Ok(Reply(docs[0]))
    ensures docs == [] ==> r == Ok(Reply(NoInformation))
    ensures r.Ok? && r.value.Reply? <==> docs == [] || (|docs| == 1 && StartsWith(docs[0], ErrorPrefix))
    ensures r.Err? <==> docs != [] && !(|docs| == 1 && StartsWith(docs[0], ErrorPrefix))
                        && ControllerNote(m.metadata, controllerId).Err?
    ensures r.Ok? && r.value.Consult? ==> r.value.request.system == m.systemPrompt && r.value.request.maxTokens == MaxTokens
    ensures r.Ok? && r.value.Consult? ==>
      r.value.request.user == PromptText(Join(docs), ControllerNote(m.metadata, controllerId).value, UserNote(userId, sessionId), question)
  {
    if |docs| == 1 && StartsWith(docs[0], ErrorPrefix) then
      Ok(Reply(docs[0]))
    else if docs == [] then
      Ok(Reply(NoInformation))
    else
      match ControllerNote(m.metadata, controllerId)
      case Err(fault) => Err(fault)
      case Ok(controllerInfo) =>
        var prompt := PromptText(Join(docs), controllerInfo, UserNote(userId, sessionId), question);
        Ok(Consult(CompletionRequest(m.systemPrompt, prompt, MaxTokens)))
  }

  /** `answer_question`: search, then reply directly or ask the completion
      provider and strip its answer. The only fault that escapes is a missing
      default controller. The second metadata lookup never fails, because
      every resolution error is echoed before it is reached. */
  function AnswerQuestion(m: ManagerState, search: SearchProvider, complete: CompletionProvider, question: string,
                          userId: Option<string>, sessionId: Option<string>, controllerId: Option<string>): (r: Result<string>)
    requires m.Valid()
    ensures r.Err? <==> DefaultMissing(m, controllerId)
    ensures r.Err? ==> r.fault == KeyError(m.defaultIndex)
  {
    match SearchDocuments(m, search, question, controllerId)
    case Err(fault) => Err(fault)
    case Ok(docs) =>
      match PlanAnswer(m, docs, question, userId, sessionId, controllerId)
      case Err(fault) => Err(fault)
      case Ok(Reply(text)) => Ok(text)
      case Ok(Consult(request)) => Ok(Strip(complete(request.system, request.user, request.maxTokens)))
  }

  /** The completion provider is consulted on this call. */
  predicate Consults(m: ManagerState, search: SearchProvider, question: string,
                     userId: Option<string>, sessionId: Option<string>, controllerId: Option<string>)
    requires m.Valid()
  {
    var docs := SearchDocuments(m, search, question, controllerId);
    docs.Ok? && var plan := PlanAnswer(m, docs.value, question, userId, sessionId, controllerId);
    plan.Ok? && plan.value.Consult?
  }

  /** Every unsupported controller id is answered with its own error text,
      whatever the providers do: the error list holds one string that starts
      with "Controller". */
  lemma UnsupportedControllerIsEchoed(m: ManagerState, search: SearchProvider, complete: CompletionProvider,
                                      question: string, userId: Option<string>, sessionId: Option<string>, controllerId: Option<string>)
    requires m.Valid() && Unsupported(m, controllerId)
    ensures AnswerQuestion(m, search, complete, question, userId, sessionId, controllerId)
      == Ok(UnsupportedMessage(controllerId.value))
    ensures !Consults(m, search, question, userId, sessionId, controllerId)
  {
  }

  /** A genuine lone snippet starting with "Controller" is returned as it
      is, with no completion call, exactly like a resolution error. */
  lemma ControllerLikeSnippetIsEchoed(m: ManagerState, search: SearchProvider, complete: CompletionProvider,
                                      question: string, userId: Option<string>, sessionId: Option<string>, controllerId: Option<string>)
    requires m.Valid() && IsController(m, Effective(m, controllerId))
    requires var hits := search(ClientFor(m, Effective(m, controllerId)), question, TopK);
      |hits| == 1 && StartsWith(hits[0].content, ErrorPrefix)
    ensures AnswerQuestion(m, search, complete, question, userId, sessionId, controllerId)
      == Ok(search(ClientFor(m, Effective(m, controllerId)), question, TopK)[0].content)
    ensures !Consults(m, search, question, userId, sessionId, controllerId)
  {
  }

  /** No hits: the fixed sentence, with no completion call. */
  lemma NoHitsGivesFallback(m: ManagerState, search: SearchProvider, complete: CompletionProvider,
                            question: string, userId: Option<string>, sessionId: Option<string>, controllerId: Option<string>)
    requires m.Valid() && IsController(m, Effective(m, controllerId))
    requires search(ClientFor(m, Effective(m, controllerId)), question, TopK) == []
    ensures AnswerQuestion(m, search, complete, question, userId, sessionId, controllerId) == Ok(NoInformation)
    ensures !Consults(m, search, question, userId, sessionId, controllerId)
  {
  }

  /** The completion branch. The provider receives the system prompt, a
      prompt built from the snippets joined by newlines, and a 150-token
      budget. The controller annotation comes from the resolved controller's
      record, and the answer is the completion stripped of whitespace. */
  lemma CompletionAnswer(m: ManagerState, search: SearchProvider, complete: CompletionProvider,
                         question: string, userId: Option<string>, sessionId: Option<string>, controllerId: Option<string>)
    requires m.Valid() && IsController(m, Effective(m, controllerId))
    requires var docs := Contents(search(ClientFor(m, Effective(m, controllerId)), question, TopK));
      docs != [] && !(|docs| == 1 && StartsWith(docs[0], ErrorPrefix))
    ensures Consults(m, search, question, userId, sessionId, controllerId)
    ensures
      var key := Effective(m, controllerId);
      var docs := Contents(search(ClientFor(m, key), question, TopK));
      var note := if Truthy(controllerId) then ControllerLine(m.metadata[key].config) else "";
      AnswerQuestion(m, search, complete, question, userId, sessionId, controllerId)
        == Ok(Strip(complete(m.systemPrompt, PromptText(Join(docs), note, UserNote(userId, sessionId), question), MaxTokens)))
  {
  }

  /** The completion branch is taken exactly when the id resolves and the
      snippets are neither empty nor a lone "Controller..." string. */
  lemma ConsultsExactly(m: ManagerState, search: SearchProvider, question: string,
                                           userId: Option<string>, sessionId: Option<string>, controllerId: Option<string>)
    requires m.Valid()
    ensures Consults(m, search, question, userId, sessionId, controllerId) <==>
      && IsController(m, Effective(m, controllerId))
      && var docs := Contents(search(ClientFor(m, Effective(m, controllerId)), question, TopK));
         docs != [] && !(|docs| == 1 && StartsWith(docs[0], ErrorPrefix))
  {
    if Unsupported(m, controllerId) {
      assert StartsWith(UnsupportedMessage(controllerId.value), ErrorPrefix);
    }
  }

  /** Off the completion branch, the answer does not depend on the
      completion provider: the provider is not consulted. */
  lemma ReplyIgnoresCompletion(m: ManagerState, search: SearchProvider, complete1: CompletionProvider, complete2: CompletionProvider,
                               question: string, userId: Option<string>, sessionId: Option<string>, controllerId: Option<string>)
    requires m.Valid() && !Consults(m, search, question, userId, sessionId, controllerId)
    ensures AnswerQuestion(m, search, complete1, question, userId, sessionId, controllerId)
         == AnswerQuestion(m, search, complete2, question, userId, sessionId, controllerId)
  {
  }

  /** On the completion branch the answer is the provider's: two providers
      that answer differently give different answers. */
  lemma CompletionDecidesAnswer(m: ManagerState, search: SearchProvider,
                                question: string, userId: Option<string>, sessionId: Option<string>, controllerId: Option<string>)
    requires m.Valid() && Consults(m, search, question, userId, sessionId, controllerId)
    ensures AnswerQuestion(m, search, (_, _, _) => "yes", question, userId, sessionId, controllerId)
         != AnswerQuestion(m, search, (_, _, _) => "no", question, userId, sessionId, controllerId)
  {
    TrimStartOfUntrimmed("yes");
    TrimEndOfUntrimmed("yes");
    TrimStartOfUntrimmed("no");
    TrimEndOfUntrimmed("no");
  }

  /** Whatever the controller or user annotation holds also occurs in the prompt. */
  lemma InfixOfPrompt(p: string, context: string, controllerInfo: string, userContext: string, question: string)
    requires IsInfix(p, controllerInfo) || IsInfix(p, userContext)
    ensures IsInfix(p, PromptText(context, controllerInfo, userContext, question))
  {
    var head := "\n    Context: " + context;
    if IsInfix(p, controllerInfo) {
      InfixPrepend(p, head, controllerInfo);
      InfixAppend(p, head + controllerInfo, userContext);
    } else {
      InfixPrepend(p, head + controllerInfo, userContext);
    }
    var contextLine := head + controllerInfo + userContext;
    var rest := "\n\n    Question: " + question + "\n\n    " + Instructions + "\n    ";
    InfixAppend(p, contextLine, rest);
    assert PromptText(context, controllerInfo, userContext, question) == contextLine + rest;
  }

  /** With both a user id and a session id, the prompt carries
      "User ID: u" and "Session ID: s". If either is missing, the prompt
      is the one built without the user annotation. */
  lemma UserAnnotation(context: string, controllerInfo: string, question: string,
                       userId: Option<string>, sessionId: Option<string>)
    ensures Truthy(userId) && Truthy(sessionId) ==>
      && IsInfix("User ID: " + userId.value, PromptText(context, controllerInfo, UserNote(userId, sessionId), question))
      && IsInfix("Session ID: " + sessionId.value, PromptText(context, controllerInfo, UserNote(userId, sessionId), question))
    ensures !(Truthy(userId) && Truthy(sessionId)) ==>
      PromptText(context, controllerInfo, UserNote(userId, sessionId), question) == PromptText(context, controllerInfo, "", question)
  {
    if Truthy(userId) && Truthy(sessionId) {
      var note := UserNote(userId, sessionId);
      UserNoteCarriesIds(userId.value, sessionId.value);
      InfixOfPrompt("User ID: " + userId.value, context, controllerInfo, note, question);
      InfixOfPrompt("Session ID: " + sessionId.value, context, controllerInfo, note, question);
    }
  }

  lemma UserNoteCarriesIds(u: string, s: string)
    requires u != "" && s != ""
    ensures IsInfix("User ID: " + u, UserNote(Some(u), Some(s)))
    ensures IsInfix("Session ID: " + s, UserNote(Some(u), Some(s)))
  {
    var note := UserNote(Some(u), Some(s));
    assert note == "\n" + ("User ID: " + u) + ("\nSession ID: " + s);
    InfixOfConcat("\n", "User ID: " + u, "\nSession ID: " + s);
    assert note == ("\nUser ID: " + u + "\n") + ("Session ID: " + s) + "";
    InfixOfConcat("\nUser ID: " + u + "\n", "Session ID: " + s, "");
  }

  /** With a controller id, the prompt carries "Controller: name (description)"
      for that controller. */
  lemma ControllerAnnotation(m: ManagerState, context: string, userContext: string, question: string, controllerId: Option<string>)
    requires Truthy(controllerId) && controllerId.value in m.metadata && m.metadata[controllerId.value].Controller?
    ensures
      var config := m.metadata[controllerId.value].config;
      IsInfix("Controller: " + config.name + " (" + config.description + ")",
              PromptText(context, ControllerNote(m.metadata, controllerId).value, userContext, question))
  {
    var config := m.metadata[controllerId.value].config;
    var line := "Controller: " + config.name + " (" + config.description + ")";
    var note := ControllerNote(m.metadata, controllerId).value;
    assert note == "\n" + line + "";
    InfixOfConcat("\n", line, "");
    InfixOfPrompt(line, context, note, userContext, question);
  }

  /** One snippet "Paris is the capital of France." and a provider that says
      "Paris." give the answer "Paris.". */
  lemma CapitalOfFrance(m: ManagerState, search: SearchProvider, userId: Option<string>, sessionId: Option<string>)
    requires m.Valid() && IsController(m, m.defaultIndex)
    requires search(ClientFor(m, m.defaultIndex), "What is the capital of France?", TopK)
          == [Hit("Paris is the capital of France.")]
    ensures AnswerQuestion(m, search, (_, _, _) => "Paris.", "What is the capital of France?", userId, sessionId, None)
         == Ok("Paris.")
  {
    var docs := ["Paris is the capital of France."];
    assert Contents([Hit("Paris is the capital of France.")]) == docs;
    assert !StartsWith(docs[0], ErrorPrefix) by {
      assert docs[0][0] != ErrorPrefix[0];
    }
    TrimStartOfUntrimmed("Paris.");
    TrimEndOfUntrimmed("Paris.");
  }

  /** `get_available_controllers`: every metadata key but `default_index`,
      mapped to its display name. */
  function AvailableControllers(metadata: map<string, Entry>): (r: map<string, string>)
    requires WellShaped(metadata)
    ensures r.Keys == metadata.Keys - {Reserved}
    ensures forall k :: k in r ==> r[k] == metadata[k].config.name
  {
    map k | k in metadata && k != Reserved :: metadata[k].config.name
  }

  /** The listing has one entry fewer than the metadata when `default_index`
      is present, and as many otherwise. */
  lemma AvailableControllersCount(metadata: map<string, Entry>)
    requires WellShaped(metadata)
    ensures Reserved !in AvailableControllers(metadata)
    ensures |AvailableControllers(metadata)| == if Reserved in metadata then |metadata| - 1 else |metadata|
  {
    var listed := AvailableControllers(metadata);
    if Reserved in metadata {
      assert metadata.Keys == listed.Keys + {Reserved};
      assert |metadata.Keys| == |listed.Keys| + 1;
    } else {
      assert metadata.Keys == listed.Keys;
    }
  }

  /** The listing and the registry agree. Every listed non-empty id
      resolves to its own client. The empty id, falsy in Python, selects
      the default controller instead. */
  lemma ListedControllersResolve(m: ManagerState)
    requires m.Valid()
    ensures AvailableControllers(m.metadata).Keys == m.searchClients.Keys
    ensures forall k :: k in AvailableControllers(m.metadata) && k != "" ==>
      GetSearchClient(m, Some(k)) == Ok(m.searchClients[k])
    ensures "" in AvailableControllers(m.metadata) ==>
      GetSearchClient(m, Some("")) == GetSearchClient(m, None)
  {
  }
}
