/**
 * The state of the IDE shell, src/App.tsx: the stored values the handlers read, the pure
 * updaters the handlers pass to the state setters, and the handlers themselves as methods of
 * `AppState`.
 *
 * `callAI` is not part of this model: the chat and agent handlers take what it does as
 * parameters (the chunks it passes to `onChunk`, then whether it throws or what it returns).
 * Message ids and timestamps (`Date.now()`) are parameters too.
 */
module App {
  import opened Wrappers
  import opened Text
  import opened Types
  import opened Records
  import Constants
  import Sidebar

  // ===========================================================================
  // Reading the stored values
  // ===========================================================================

  /** `currentFile || 'index.js'`: a missing or empty name falls back; the result is never empty. */
  function EffectiveFile(currentFile: Option<string>): (file: string)
    ensures file != ""
    ensures currentFile.Some? && currentFile.value != "" ==> file == currentFile.value
    ensures file != Constants.FallbackFile ==> currentFile == Some(file)
  {
    match currentFile
    case Some(f) => if f != "" then f else Constants.FallbackFile
    case None => Constants.FallbackFile
  }

  /**
   * `AI_PROVIDERS.find(p => p.id === selectedProvider) || AI_PROVIDERS[0]`: the first built-in
   * with the selected id, the first built-in when none has it.
   */
  function CurrentProvider(builtins: seq<Provider>, selected: Option<string>): (p: Provider)
    requires |builtins| > 0
    ensures p in builtins
    ensures selected.Some? && Sidebar.FindProvider(builtins, selected.value).Some? ==>
              p == Sidebar.FindProvider(builtins, selected.value).value && p.id == selected.value
    ensures (selected.None? || forall i :: 0 <= i < |builtins| ==> builtins[i].id != selected.value) ==>
              p == builtins[0]
  {
    match selected
    case Some(id) =>
      (match Sidebar.FindProvider(builtins, id)
       case Some(found) => found
       case None => builtins[0])
    case None => builtins[0]
  }

  /** `apiKeys?.[currentProvider.id] || ''` */
  function CurrentApiKey(apiKeys: Option<map<string, string>>, provider: Provider): (key: string)
    ensures key != "" ==> apiKeys.Some? && provider.id in apiKeys.value && apiKeys.value[provider.id] == key
    ensures apiKeys.Some? && provider.id in apiKeys.value ==> key == apiKeys.value[provider.id]
  {
    if apiKeys.Some? && provider.id in apiKeys.value then apiKeys.value[provider.id] else ""
  }

  /** `!currentApiKey && currentProvider.requiresApiKey`: the guard of both AI handlers. */
  predicate KeyMissing(key: string, provider: Provider)
    ensures KeyMissing(key, provider) ==> provider.requiresApiKey
    ensures key != "" ==> !KeyMissing(key, provider)
  {
    key == "" && provider.requiresApiKey
  }

  /**
   * `selectedModel || currentProvider.models[0].value`: the selected model unless it is missing
   * or empty, else the provider's first model; `None` where reading `models[0].value` throws.
   */
  function ResolveModel(selectedModel: Option<string>, provider: Provider): (model: Option<string>)
    ensures model.None? <==> (selectedModel.None? || selectedModel.value == "") && |provider.models| == 0
    ensures selectedModel.Some? && selectedModel.value != "" ==> model == selectedModel
    ensures model.Some? && model != selectedModel ==> |provider.models| > 0 && model.value == provider.models[0].value
  {
    match selectedModel
    case Some(m) =>
      if m != "" then Some(m)
      else if |provider.models| > 0 then Some(provider.models[0].value) else None
    case None =>
      if |provider.models| > 0 then Some(provider.models[0].value) else None
  }

  /**
   * `files[file]?.content || ''`, where `files` is `fileSystem || DEFAULT_FILE_SYSTEM`: the
   * current file's content, `''` when it has none.
   */
  function CurrentContent(files: FileSystem, currentFile: Option<string>): (code: string)
    ensures var node := Get(files, EffectiveFile(currentFile));
      code != "" ==> node.Some? && node.value.content == Some(code)
    ensures var node := Get(files, EffectiveFile(currentFile));
      node.Some? && node.value.content.Some? ==> code == node.value.content.value
  {
    match Get(files, EffectiveFile(currentFile))
    case Some(node) => node.content.GetOr("")
    case None => ""
  }

  // ===========================================================================
  // File-system updaters
  // ===========================================================================

  /**
   * The updater of `handleFileChange`, given `prev || DEFAULT_FILE_SYSTEM`: the current file
   * (fallback `index.js`) gets the new
   * content, keeping its other fields; a missing entry becomes a node holding only the content.
   */
  function ChangedFiles(prev: FileSystem, currentFile: Option<string>, content: string): (files: FileSystem)
    ensures Get(files, EffectiveFile(currentFile)).Some?
    ensures Get(files, EffectiveFile(currentFile)).value.content == Some(content)
    ensures Get(prev, EffectiveFile(currentFile)).Some? ==>
              var before := Get(prev, EffectiveFile(currentFile)).value;
              var after := Get(files, EffectiveFile(currentFile)).value;
              after.kind == before.kind && after.name == before.name
    ensures Get(prev, EffectiveFile(currentFile)).None? ==>
              Get(files, EffectiveFile(currentFile)).value == FileSystemNode(None, None, Some(content))
    ensures forall k :: k != EffectiveFile(currentFile) ==> Get(files, k) == Get(prev, k)
    ensures UniqueKeys(prev) ==> UniqueKeys(files)
  {
    var file := EffectiveFile(currentFile);
    var node := match Get(prev, file)
      case Some(n) => n.(content := Some(content))
      case None => FileSystemNode(None, None, Some(content));
    var files := Put(prev, file, node);
    assert UniqueKeys(prev) ==> UniqueKeys(files) by {
      if UniqueKeys(prev) {
        PutKeepsKeysUnique(prev, file, node);
      }
    }
    files
  }

  /** Editing an existing file keeps the key order and the key set. */
  lemma ChangeKeepsKeys(prev: FileSystem, currentFile: Option<string>, content: string)
    requires EffectiveFile(currentFile) in Keys(prev)
    ensures Keys(ChangedFiles(prev, currentFile, content)) == Keys(prev)
  {
    var file := EffectiveFile(currentFile);
    PutKeys(prev, file, Get(prev, file).value.(content := Some(content)));
  }

  /** The guard of `handleFileCreate`, as intended: the name is an own key of the file system. */
  predicate FileExists(files: FileSystem, filename: string)
    ensures FileExists(files, filename) <==> filename in Keys(files)
  {
    Get(files, filename).Some?
  }

  /**
   * The guard as written, `files[filename]` truthy: it also holds for the names every object
   * inherits, so `toString` or `constructor` are refused as already existing.
   */
  predicate FileExistsAsWritten(files: FileSystem, filename: string)
    ensures FileExists(files, filename) ==> FileExistsAsWritten(files, filename)
    ensures FileExistsAsWritten(files, filename) && !FileExists(files, filename) ==> filename in ObjectPrototypeMembers
  {
    Get(files, filename).Some? || filename in ObjectPrototypeMembers
  }

  /** A name `Object.prototype` defines is refused by the guard as written though no file has it. */
  lemma InheritedNameRefused(files: FileSystem)
    requires "toString" !in Keys(files)
    ensures FileExistsAsWritten(files, "toString")
    ensures !FileExists(files, "toString")
  {
  }

  /** Elsewhere both guards agree. */
  lemma GuardsAgreeOffPrototype(files: FileSystem, filename: string)
    requires filename !in ObjectPrototypeMembers
    ensures FileExistsAsWritten(files, filename) <==> FileExists(files, filename)
  {
  }

  /** The updater of `handleFileCreate`: `{ ...(prev || {}), [filename]: { type: 'file', name, content: '' } }`. */
  function CreatedFiles(prev: Option<FileSystem>, filename: string): (files: FileSystem)
    ensures Get(files, filename) == Some(Constants.FileNode(filename, ""))
    ensures forall k :: k != filename ==> Get(files, k) == Get(prev.GetOr([]), k)
    ensures UniqueKeys(prev.GetOr([])) ==> UniqueKeys(files)
  {
    var files := Put(prev.GetOr([]), filename, Constants.FileNode(filename, ""));
    assert UniqueKeys(prev.GetOr([])) ==> UniqueKeys(files) by {
      if UniqueKeys(prev.GetOr([])) {
        PutKeepsKeysUnique(prev.GetOr([]), filename, Constants.FileNode(filename, ""));
      }
    }
    files
  }

  /** Creating a fresh name adds exactly one entry, last, and keeps the keys unique. */
  lemma CreateAddsOneEntry(files: FileSystem, filename: string)
    requires UniqueKeys(files)
    requires !FileExists(files, filename)
    ensures Keys(CreatedFiles(Some(files), filename)) == Keys(files) + [filename]
    ensures |CreatedFiles(Some(files), filename)| == |files| + 1
    ensures UniqueKeys(CreatedFiles(Some(files), filename))
  {
    PutKeys(files, filename, Constants.FileNode(filename, ""));
    PutKeepsKeysUnique(files, filename, Constants.FileNode(filename, ""));
  }

  /**
   * Before the stored file system is known, the guard looks at the default files but the
   * updater starts from `{}`: the created file is then the only one.
   */
  lemma CreateBeforeLoadDropsDefaults(filename: string)
    ensures CreatedFiles(None, filename) == [(filename, Constants.FileNode(filename, ""))]
  {
  }

  /** The guard of `handleFileDelete`: exactly one key. */
  predicate IsLastFile(files: FileSystem)
    ensures IsLastFile(files) <==> |files| == 1
  {
    |Keys(files)| == 1
  }

  /** The updater of `handleFileDelete`: a copy of `prev || {}` without the key. */
  function DeletedFiles(prev: Option<FileSystem>, filename: string): (files: FileSystem)
    ensures Get(files, filename).None?
    ensures forall k :: k != filename ==> Get(files, k) == Get(prev.GetOr([]), k)
    ensures UniqueKeys(prev.GetOr([])) ==> UniqueKeys(files)
  {
    var files := Delete(prev.GetOr([]), filename);
    assert UniqueKeys(prev.GetOr([])) ==> UniqueKeys(files) by {
      if UniqueKeys(prev.GetOr([])) {
        DeleteOneEntry(prev.GetOr([]), filename);
      }
    }
    files
  }

  /**
   * `Object.keys(files).find(f => f !== filename) || 'index.js'`: the first key of the
   * file system before the delete that is not the deleted name, unless there is none or it is
   * the empty name.
   */
  function NextCurrentFile(files: FileSystem, filename: string): (next: string)
    ensures next != ""
    ensures next != Constants.FallbackFile ==>
              exists i :: 0 <= i < |files| && files[i].0 == next && next != filename
                       && forall j :: 0 <= j < i ==> files[j].0 == filename
    ensures (forall i :: 0 <= i < |files| ==> files[i].0 == filename) ==> next == Constants.FallbackFile
    ensures forall i :: IsFirstOtherKey(files, filename, i) ==>
              next == if files[i].0 != "" then files[i].0 else Constants.FallbackFile
  {
    FirstOtherKeyUnique(files, filename);
    match FirstKeyOtherThan(files, filename)
    case Some(k) => if k != "" then k else Constants.FallbackFile
    case None => Constants.FallbackFile
  }

  /** Entry `i` holds the first key of `files` that differs from `filename`. */
  predicate IsFirstOtherKey(files: FileSystem, filename: string, i: int) {
    0 <= i < |files| && files[i].0 != filename && forall j :: 0 <= j < i ==> files[j].0 == filename
  }

  /** Only one entry holds the first key that differs from `filename`. */
  lemma FirstOtherKeyUnique(files: FileSystem, filename: string)
    ensures forall i, i' :: IsFirstOtherKey(files, filename, i) && IsFirstOtherKey(files, filename, i') ==> i == i'
  {
  }

  /**
   * When the guard lets a delete through on a loaded file system with unique, non-empty keys,
   * the next current file is one of the files that remain.
   */
  lemma NextCurrentFileRemains(files: FileSystem, filename: string)
    requires UniqueKeys(files) && !IsLastFile(files) && |files| > 0
    requires "" !in Keys(files)
    ensures NextCurrentFile(files, filename) in Keys(DeletedFiles(Some(files), filename))
    ensures NextCurrentFile(files, filename) != filename
  {
    assert files[0].0 != filename || files[1].0 != filename;
    var f := FirstKeyOtherThan(files, filename);
    var i :| 0 <= i < |files| && files[i].0 == f.value && f.value != filename;
    assert Keys(files)[i] == f.value;
    assert f.value != "";
    assert NextCurrentFile(files, filename) == f.value;
    assert Get(files, f.value).Some?;
    assert Get(DeletedFiles(Some(files), filename), f.value) == Get(files, f.value);
  }

  /** Deleting removes exactly the one entry of that name and nothing else. */
  lemma DeleteRemovesOneEntry(files: FileSystem, filename: string)
    requires UniqueKeys(files)
    requires filename in Keys(files)
    ensures |DeletedFiles(Some(files), filename)| == |files| - 1
    ensures UniqueKeys(DeletedFiles(Some(files), filename))
    ensures filename !in Keys(DeletedFiles(Some(files), filename))
  {
    DeleteOneEntry(files, filename);
  }

  // ===========================================================================
  // Chat-message updaters
  // ===========================================================================

  /** The updater of `onChunk`: the messages with the placeholder's id get the running content; the others are kept. */
  function WithAssistantContent(messages: seq<ChatMessage>, id: string, content: string): (r: seq<ChatMessage>)
    ensures |r| == |messages|
    ensures forall i :: 0 <= i < |r| && messages[i].id == id ==> r[i] == messages[i].(content := content)
    ensures forall i :: 0 <= i < |r| && messages[i].id != id ==> r[i] == messages[i]
  {
    seq(|messages|, i requires 0 <= i < |messages| =>
      if messages[i].id == id then messages[i].(content := content) else messages[i])
  }

  /** The updater of the error path: the messages with the placeholder's id removed, the others kept in order. */
  function WithoutMessage(messages: seq<ChatMessage>, id: string): (r: seq<ChatMessage>)
    ensures forall i :: 0 <= i < |r| ==> r[i].id != id
    ensures forall m :: m in messages && m.id != id ==> m in r
    ensures forall m :: m in r ==> m in messages
  {
    if messages == [] then []
    else (if messages[0].id != id then [messages[0]] else []) + WithoutMessage(messages[1..], id)
  }

  lemma {:induction false} WithoutMessageAppend(a: seq<ChatMessage>, b: seq<ChatMessage>, id: string)
    ensures WithoutMessage(a + b, id) == WithoutMessage(a, id) + WithoutMessage(b, id)
    decreases |a|
  {
    if a == [] {
      assert a + b == b;
    } else {
      var ab := a + b;
      assert ab[0] == a[0] && ab[1..] == a[1..] + b;
      WithoutMessageAppend(a[1..], b, id);
      assert WithoutMessage(ab, id) == (if a[0].id != id then [a[0]] else []) + WithoutMessage(ab[1..], id);
    }
  }

  lemma {:induction false} WithoutAbsentId(messages: seq<ChatMessage>, id: string)
    requires forall i :: 0 <= i < |messages| ==> messages[i].id != id
    ensures WithoutMessage(messages, id) == messages
    decreases |messages|
  {
    if messages != [] {
      WithoutAbsentId(messages[1..], id);
    }
  }

  /** Removing the placeholder undoes every update `onChunk` made to it. */
  lemma {:induction false} RemovalForgetsUpdates(messages: seq<ChatMessage>, id: string, content: string)
    ensures WithoutMessage(WithAssistantContent(messages, id, content), id) == WithoutMessage(messages, id)
    decreases |messages|
  {
    if messages != [] {
      var updated := WithAssistantContent(messages, id, content);
      assert updated[1..] == WithAssistantContent(messages[1..], id, content);
      RemovalForgetsUpdates(messages[1..], id, content);
    }
  }

  /**
   * On the error path the list is what it was before the call plus the user's message, as
   * long as no earlier message shares the placeholder's id.
   */
  lemma FailedSendKeepsUserMessage(before: seq<ChatMessage>, user: ChatMessage, placeholder: ChatMessage, content: string)
    requires placeholder.id != user.id
    requires forall i :: 0 <= i < |before| ==> before[i].id != placeholder.id
    ensures WithoutMessage(WithAssistantContent(before + [user, placeholder], placeholder.id, content), placeholder.id)
         == before + [user]
  {
    var id := placeholder.id;
    RemovalForgetsUpdates(before + [user, placeholder], id, content);
    assert before + [user, placeholder] == before + [user] + [placeholder];
    WithoutMessageAppend(before + [user], [placeholder], id);
    WithoutAbsentId(before + [user], id);
    assert WithoutMessage([placeholder], id) == [] + WithoutMessage([], id);
  }

  /** A later update replaces an earlier one. */
  lemma LastUpdateWins(messages: seq<ChatMessage>, id: string, a: string, b: string)
    ensures WithAssistantContent(WithAssistantContent(messages, id, a), id, b) == WithAssistantContent(messages, id, b)
  {
  }

  /**
   * The messages after the chunks of a call: unchanged when no chunk came, otherwise the
   * placeholder holds the concatenation of all of them.
   */
  function StreamedMessages(sent: seq<ChatMessage>, id: string, chunks: seq<string>): seq<ChatMessage> {
    if chunks == [] then sent else WithAssistantContent(sent, id, Concat(chunks))
  }

  /** One more chunk: the placeholder is set to everything received so far. */
  lemma StreamedMessagesSnoc(sent: seq<ChatMessage>, id: string, chunks: seq<string>, chunk: string)
    ensures StreamedMessages(sent, id, chunks + [chunk])
         == WithAssistantContent(StreamedMessages(sent, id, chunks), id, Concat(chunks) + chunk)
  {
    ConcatSnoc(chunks, chunk);
  }

  /** While streaming, the placeholder (the last message) shows the concatenation of the chunks so far. */
  lemma PlaceholderShowsStream(before: seq<ChatMessage>, user: ChatMessage, placeholder: ChatMessage, chunks: seq<string>)
    requires |chunks| > 0
    ensures var after := StreamedMessages(before + [user, placeholder], placeholder.id, chunks);
      && |after| == |before| + 2
      && after[|before| + 1] == placeholder.(content := Concat(chunks))
      && (user.id != placeholder.id ==> after[|before|] == user)
  {
  }

  // ===========================================================================
  // The handlers
  // ===========================================================================

  /** A toast shown by a handler. */
  datatype Toast = Success(text: string) | Failure(text: string)

  /** What a `catch` receives: an `Error` with its message, or any other value. */
  datatype Thrown = ErrorInstance(message: string) | OtherValue

  /** `error instanceof Error ? error.message : fallback` */
  function ThrownText(e: Thrown, fallback: string): (text: string)
    ensures e.ErrorInstance? ==> text == e.message
    ensures e.OtherValue? ==> text == fallback
  {
    match e
    case ErrorInstance(m) => m
    case OtherValue => fallback
  }

  /** The message of the `TypeError` that reading `models[0].value` of an empty list throws (V8's wording). */
  const TypeErrorText := "Cannot read properties of undefined (reading 'value')"

  function CreatedNotice(filename: string): string {
    "Created " + filename
  }

  function DeletedNotice(filename: string): string {
    "Deleted " + filename
  }

  function MissingKeyNotice(provider: Provider): string {
    "Please add your " + provider.name + " API key in settings"
  }

  /**
   * A call of `callAI`: `{ provider, model, apiKey }`, the messages, and whether an `onChunk`
   * callback was passed (the chat streams, the agents do not).
   */
  datatype AiCall = AiCall(provider: string, model: string, apiKey: string, messages: seq<WireMessage>, streaming: bool)

  class AppState {
    /** `AI_PROVIDERS`, which is not part of this model: given at construction */
    const builtins: seq<Provider>
    /** `DEFAULT_FILE_SYSTEM`, set once by the constructor */
    const defaultFiles: FileSystem
    var currentPanel: PanelType
    var selectedProvider: Option<string>
    var selectedModel: Option<string>
    var apiKeys: Option<map<string, string>>
    var chatMessages: Option<seq<ChatMessage>>
    var fileSystem: Option<FileSystem>
    var currentFile: Option<string>
    var isStreaming: bool
    var showSettings: bool
    var agentOutput: string
    var isAgentRunning: bool

    /** There is a built-in provider, and the default and stored file systems have unique keys. */
    predicate Valid()
      reads this
    {
      |builtins| > 0 && UniqueKeys(defaultFiles) && UniqueKeys(Files())
    }

    /** `fileSystem || DEFAULT_FILE_SYSTEM`: an object is always truthy, so only a missing value falls back. */
    function Files(): (files: FileSystem)
      reads this
      ensures fileSystem.Some? ==> files == fileSystem.value
      ensures fileSystem.None? ==> files == defaultFiles
    {
      fileSystem.GetOr(defaultFiles)
    }

    /** The initial state: every stored value at its default. */
    constructor (builtins: seq<Provider>)
      requires |builtins| > 0 && |builtins[0].models| > 0
      ensures Valid() && this.builtins == builtins
      ensures currentPanel == Chat
      ensures selectedProvider == Some(builtins[0].id) && selectedModel == Some(builtins[0].models[0].value)
      ensures apiKeys == Some(map[]) && chatMessages == Some([])
      ensures defaultFiles == Constants.DefaultFileSystem()
      ensures fileSystem == Some(defaultFiles) && currentFile == Some(Constants.FallbackFile)
      ensures !isStreaming && !showSettings && agentOutput == "" && !isAgentRunning
    {
      this.builtins := builtins;
      currentPanel := Chat;
      selectedProvider := Some(builtins[0].id);
      selectedModel := Some(builtins[0].models[0].value);
      apiKeys := Some(map[]);
      chatMessages := Some([]);
      defaultFiles := Constants.DefaultFileSystem();
      fileSystem := Some(defaultFiles);
      currentFile := Some(Constants.FallbackFile);
      isStreaming := false;
      showSettings := false;
      agentOutput := "";
      isAgentRunning := false;
    }

    /** `handleProviderChange`: select the provider, and its first model when it is a built-in with models. */
    method ProviderChange(providerId: string)
      requires Valid()
      modifies this
      ensures Valid()
      ensures selectedProvider == Some(providerId)
      ensures var found := Sidebar.FindProvider(builtins, providerId);
        if found.Some? && |found.value.models| > 0 then selectedModel == Some(found.value.models[0].value)
        else selectedModel == old(selectedModel)
      ensures currentPanel == old(currentPanel) && apiKeys == old(apiKeys) && chatMessages == old(chatMessages)
      ensures fileSystem == old(fileSystem) && currentFile == old(currentFile)
      ensures isStreaming == old(isStreaming) && showSettings == old(showSettings)
      ensures agentOutput == old(agentOutput) && isAgentRunning == old(isAgentRunning)
    {
      selectedProvider := Some(providerId);
      var provider := Sidebar.FindProvider(builtins, providerId);
      if provider.Some? && |provider.value.models| > 0 {
        selectedModel := Some(provider.value.models[0].value);
      }
    }

    /**
     * `handleSendMessage(content)`: the key guard, the user's message and the empty assistant
     * placeholder appended, then the call. `chunks` are the values `callAI` passes to
     * `onChunk`, in order; `outcome` is what it throws afterwards, if anything.
     */
    method SendMessage(content: string, userId: string, userTime: int, assistantId: string, assistantTime: int,
                       chunks: seq<string>, outcome: Option<Thrown>)
      returns (call: Option<AiCall>, toast: Option<Toast>)
      requires Valid()
      modifies this
      ensures Valid()
      ensures var provider := CurrentProvider(builtins, old(selectedProvider));
        var key := CurrentApiKey(old(apiKeys), provider);
        var sent := old(chatMessages).GetOr([]) + [ChatMessage(userId, User, content, userTime),
                                                   ChatMessage(assistantId, Assistant, "", assistantTime)];
        if KeyMissing(key, provider) then
          && call == None && toast == Some(Failure(MissingKeyNotice(provider)))
          && showSettings && chatMessages == old(chatMessages) && isStreaming == old(isStreaming)
        else
          && showSettings == old(showSettings)
          && ChatCallEnded(call, toast, chatMessages, isStreaming, provider, key, old(selectedModel), content,
                           sent, assistantId, chunks, outcome)
      ensures currentPanel == old(currentPanel) && selectedProvider == old(selectedProvider)
      ensures selectedModel == old(selectedModel) && apiKeys == old(apiKeys)
      ensures fileSystem == old(fileSystem) && currentFile == old(currentFile)
      ensures agentOutput == old(agentOutput) && isAgentRunning == old(isAgentRunning)
    {
      var provider := CurrentProvider(builtins, selectedProvider);
      var key := CurrentApiKey(apiKeys, provider);
      if key == "" && provider.requiresApiKey {
        toast := Some(Failure(MissingKeyNotice(provider)));
        showSettings := true;
        return None, toast;
      }

      var userMessage := ChatMessage(userId, User, content, userTime);
      chatMessages := Some(chatMessages.GetOr([]) + [userMessage]);
      isStreaming := true;

      var assistantMessage := ChatMessage(assistantId, Assistant, "", assistantTime);
      chatMessages := Some(chatMessages.GetOr([]) + [assistantMessage]);
      assert chatMessages.value == old(chatMessages).GetOr([]) + [userMessage, assistantMessage];
      call, toast := ChatCall(provider, key, content, assistantId, chunks, outcome);
    }

    /**
     * The `try` block of `handleSendMessage`, with its `catch` and `finally`: each chunk is
     * added to the running content, which replaces the placeholder's content.
     */
    method ChatCall(provider: Provider, key: string, content: string, assistantId: string,
                    chunks: seq<string>, outcome: Option<Thrown>)
      returns (call: Option<AiCall>, toast: Option<Toast>)
      requires chatMessages.Some?
      modifies this
      ensures ChatCallEnded(call, toast, chatMessages, isStreaming, provider, key, selectedModel, content,
                            old(chatMessages).value, assistantId, chunks, outcome)
      ensures currentPanel == old(currentPanel) && selectedProvider == old(selectedProvider)
      ensures selectedModel == old(selectedModel) && apiKeys == old(apiKeys)
      ensures fileSystem == old(fileSystem) && currentFile == old(currentFile)
      ensures agentOutput == old(agentOutput) && isAgentRunning == old(isAgentRunning)
      ensures showSettings == old(showSettings)
    {
      var sent := chatMessages.value;
      var model := ResolveModel(selectedModel, provider);
      if model.None? {
        // the TypeError is thrown inside the `try`, so the `catch` handles it
        toast := Some(Failure(TypeErrorText));
        chatMessages := Some(WithoutMessage(chatMessages.GetOr([]), assistantId));
        isStreaming := false;
        return None, toast;
      }
      call := Some(AiCall(provider.id, model.value, key, [WireMessage("user", content)], true));

      var assistantContent := "";
      var i := 0;
      while i < |chunks|
        invariant 0 <= i <= |chunks|
        invariant assistantContent == Concat(chunks[..i])
        invariant chatMessages == Some(StreamedMessages(sent, assistantId, chunks[..i]))
        invariant currentPanel == old(currentPanel) && selectedProvider == old(selectedProvider)
        invariant selectedModel == old(selectedModel) && apiKeys == old(apiKeys)
        invariant fileSystem == old(fileSystem) && currentFile == old(currentFile)
        invariant agentOutput == old(agentOutput) && isAgentRunning == old(isAgentRunning)
        invariant showSettings == old(showSettings)
      {
        StreamedMessagesSnoc(sent, assistantId, chunks[..i], chunks[i]);
        ConcatSnoc(chunks[..i], chunks[i]);
        assert chunks[..i + 1] == chunks[..i] + [chunks[i]];
        assistantContent := assistantContent + chunks[i];
        chatMessages := Some(WithAssistantContent(chatMessages.GetOr([]), assistantId, assistantContent));
        i := i + 1;
      }
      assert chunks[..|chunks|] == chunks;

      toast := None;
      if outcome.Some? {
        toast := Some(Failure(ThrownText(outcome.value, "Failed to send message")));
        chatMessages := Some(WithoutMessage(chatMessages.GetOr([]), assistantId));
      }
      isStreaming := false;
    }

    /** `handleFileChange(content)` */
    method FileChange(content: string)
      requires Valid()
      modifies this
      ensures Valid()
      ensures fileSystem == Some(ChangedFiles(old(Files()), old(currentFile), content))
      ensures currentFile == old(currentFile) && currentPanel == old(currentPanel)
      ensures chatMessages == old(chatMessages) && selectedProvider == old(selectedProvider)
      ensures selectedModel == old(selectedModel) && apiKeys == old(apiKeys)
      ensures isStreaming == old(isStreaming) && showSettings == old(showSettings)
      ensures agentOutput == old(agentOutput) && isAgentRunning == old(isAgentRunning)
    {
      fileSystem := Some(ChangedFiles(Files(), currentFile, content));
    }

    /** `handleFileSelect(filename)`: the file becomes current and the editor is shown. */
    method FileSelect(filename: string)
      requires Valid()
      modifies this
      ensures Valid()
      ensures currentFile == Some(filename) && currentPanel == Editor
      ensures fileSystem == old(fileSystem) && chatMessages == old(chatMessages)
      ensures selectedProvider == old(selectedProvider) && selectedModel == old(selectedModel)
      ensures apiKeys == old(apiKeys) && isStreaming == old(isStreaming) && showSettings == old(showSettings)
      ensures agentOutput == old(agentOutput) && isAgentRunning == old(isAgentRunning)
    {
      currentFile := Some(filename);
      currentPanel := Editor;
    }

    /** `handleFileCreate(filename)` */
    method FileCreate(filename: string) returns (toast: Toast)
      requires Valid()
      modifies this
      ensures Valid()
      ensures FileExists(old(Files()), filename) ==>
                && toast == Failure("File already exists")
                && fileSystem == old(fileSystem) && currentFile == old(currentFile) && currentPanel == old(currentPanel)
      ensures !FileExists(old(Files()), filename) ==>
                && toast == Success(CreatedNotice(filename))
                && fileSystem == Some(CreatedFiles(old(fileSystem), filename))
                && currentFile == Some(filename) && currentPanel == Editor
      ensures chatMessages == old(chatMessages) && selectedProvider == old(selectedProvider)
      ensures selectedModel == old(selectedModel) && apiKeys == old(apiKeys)
      ensures isStreaming == old(isStreaming) && showSettings == old(showSettings)
      ensures agentOutput == old(agentOutput) && isAgentRunning == old(isAgentRunning)
    {
      if FileExists(Files(), filename) {
        toast := Failure("File already exists");
      } else {
        fileSystem := Some(CreatedFiles(fileSystem, filename));
        currentFile := Some(filename);
        currentPanel := Editor;
        toast := Success(CreatedNotice(filename));
      }
    }

    /** `handleFileDelete(filename)` */
    method FileDelete(filename: string) returns (toast: Toast)
      requires Valid()
      modifies this
      ensures Valid()
      ensures IsLastFile(old(Files())) ==>
                toast == Failure("Cannot delete the last file")
                && fileSystem == old(fileSystem) && currentFile == old(currentFile)
      ensures !IsLastFile(old(Files())) ==>
                && toast == Success(DeletedNotice(filename))
                && fileSystem == Some(DeletedFiles(old(fileSystem), filename))
                && currentFile == if old(currentFile) == Some(filename)
                                  then Some(NextCurrentFile(old(Files()), filename))
                                  else old(currentFile)
      ensures currentPanel == old(currentPanel) && chatMessages == old(chatMessages)
      ensures selectedProvider == old(selectedProvider) && selectedModel == old(selectedModel)
      ensures apiKeys == old(apiKeys) && isStreaming == old(isStreaming) && showSettings == old(showSettings)
      ensures agentOutput == old(agentOutput) && isAgentRunning == old(isAgentRunning)
    {
      var files := Files();
      if |Keys(files)| == 1 {
        toast := Failure("Cannot delete the last file");
      } else {
        assert UniqueKeys(fileSystem.GetOr([])) by {
          if fileSystem.None? {
            assert fileSystem.GetOr([]) == [];
          }
        }
        var remaining := DeletedFiles(fileSystem, filename);
        fileSystem := Some(remaining);
        assert Files() == remaining;
        if currentFile == Some(filename) {
          currentFile := Some(NextCurrentFile(files, filename));
        }
        toast := Success(DeletedNotice(filename));
      }
    }

    /**
     * `handleRunAgent(agent)`: the two guards, then the agent call for the current file's
     * content. `outcome` is what `callAI` returns or throws.
     */
    method RunAgent(agent: AgentType, outcome: Result<string, Thrown>) returns (call: Option<AiCall>, toast: Toast)
      requires Valid()
      modifies this
      ensures Valid()
      ensures var provider := CurrentProvider(builtins, old(selectedProvider));
        var key := CurrentApiKey(old(apiKeys), provider);
        var code := CurrentContent(old(Files()), old(currentFile));
        if KeyMissing(key, provider) then
          call == None && toast == Failure(MissingKeyNotice(provider)) && showSettings
          && agentOutput == old(agentOutput) && isAgentRunning == old(isAgentRunning)
        else if Trim(code) == "" then
          call == None && toast == Failure("No code in the editor to analyze")
          && showSettings == old(showSettings) && agentOutput == old(agentOutput) && isAgentRunning == old(isAgentRunning)
        else
          && showSettings == old(showSettings)
          && AgentRunEnded(call, toast, agentOutput, isAgentRunning, agent, provider, key, old(selectedModel), code, outcome)
      ensures currentPanel == old(currentPanel) && selectedProvider == old(selectedProvider)
      ensures selectedModel == old(selectedModel) && apiKeys == old(apiKeys) && chatMessages == old(chatMessages)
      ensures fileSystem == old(fileSystem) && currentFile == old(currentFile) && isStreaming == old(isStreaming)
    {
      var provider := CurrentProvider(builtins, selectedProvider);
      var key := CurrentApiKey(apiKeys, provider);
      if key == "" && provider.requiresApiKey {
        showSettings := true;
        return None, Failure(MissingKeyNotice(provider));
      }

      var code := CurrentContent(Files(), currentFile);
      if Trim(code) == "" {
        return None, Failure("No code in the editor to analyze");
      }
      call, toast := RunAgentCall(agent, provider, key, code, outcome);
    }

    /** The `try` block of `handleRunAgent`, with its `catch` and `finally`. */
    method RunAgentCall(agent: AgentType, provider: Provider, key: string, code: string, outcome: Result<string, Thrown>)
      returns (call: Option<AiCall>, toast: Toast)
      modifies this
      ensures AgentRunEnded(call, toast, agentOutput, isAgentRunning, agent, provider, key, selectedModel, code, outcome)
      ensures currentPanel == old(currentPanel) && selectedProvider == old(selectedProvider)
      ensures selectedModel == old(selectedModel) && apiKeys == old(apiKeys) && chatMessages == old(chatMessages)
      ensures fileSystem == old(fileSystem) && currentFile == old(currentFile) && isStreaming == old(isStreaming)
      ensures showSettings == old(showSettings)
    {
      isAgentRunning := true;
      agentOutput := "";
      var prompt := Constants.AgentPrompt(agent, code);
      var model := ResolveModel(selectedModel, provider);
      if model.None? {
        isAgentRunning := false;
        return None, Failure(TypeErrorText);
      }
      call := Some(AiCall(provider.id, model.value, key, [WireMessage("user", prompt)], false));
      match outcome {
        case Ok(response) =>
          agentOutput := response;
          toast := Success("Agent completed analysis");
        case Err(e) =>
          toast := Failure(ThrownText(e, "Agent failed"));
      }
      isAgentRunning := false;
    }
  }

  /**
   * How a chat call ends, from the message list `sent` with the placeholder: no longer
   * streaming; with the `TypeError` and the placeholder removed when no model can be chosen;
   * otherwise after one call with the user's content, the placeholder holding every chunk, or
   * removed and the error shown when the call throws.
   */
  predicate ChatCallEnded(call: Option<AiCall>, toast: Option<Toast>, messages: Option<seq<ChatMessage>>,
                          isStreaming: bool, provider: Provider, key: string, selectedModel: Option<string>,
                          content: string, sent: seq<ChatMessage>, assistantId: string,
                          chunks: seq<string>, outcome: Option<Thrown>)
  {
    var model := ResolveModel(selectedModel, provider);
    && !isStreaming
    && (model.None? ==>
          call == None && toast == Some(Failure(TypeErrorText)) && messages == Some(WithoutMessage(sent, assistantId)))
    && (model.Some? ==>
          && call == Some(AiCall(provider.id, model.value, key, [WireMessage("user", content)], true))
          && (outcome.None? ==> toast == None && messages == Some(StreamedMessages(sent, assistantId, chunks)))
          && (outcome.Some? ==>
                && toast == Some(Failure(ThrownText(outcome.value, "Failed to send message")))
                && messages == Some(WithoutMessage(StreamedMessages(sent, assistantId, chunks), assistantId))))
  }

  /**
   * How an agent run that passed both guards ends: no longer running; with the `TypeError`
   * when no model can be chosen; otherwise after one call with the agent's prompt for the
   * code, showing the response, or nothing and the error.
   */
  predicate AgentRunEnded(call: Option<AiCall>, toast: Toast, agentOutput: string, isAgentRunning: bool,
                          agent: AgentType, provider: Provider, key: string, selectedModel: Option<string>,
                          code: string, outcome: Result<string, Thrown>)
  {
    var model := ResolveModel(selectedModel, provider);
    && !isAgentRunning
    && (model.None? ==> call == None && toast == Failure(TypeErrorText) && agentOutput == "")
    && (model.Some? ==>
          && call == Some(AiCall(provider.id, model.value, key, [WireMessage("user", Constants.AgentPrompt(agent, code))], false))
          && (outcome.Ok? ==> toast == Success("Agent completed analysis") && agentOutput == outcome.value)
          && (outcome.Err? ==> toast == Failure(ThrownText(outcome.error, "Agent failed")) && agentOutput == ""))
  }

  // ===========================================================================
  // Properties of the handlers' choices
  // ===========================================================================

  /**
   * After a change to a built-in provider with models, that provider is the current one and
   * its first model is the one a call uses.
   */
  lemma ProviderChangeSelectsFirstModel(builtins: seq<Provider>, providerId: string, oldModel: Option<string>)
    requires |builtins| > 0
    requires Sidebar.FindProvider(builtins, providerId).Some?
    requires |Sidebar.FindProvider(builtins, providerId).value.models| > 0
    requires Sidebar.FindProvider(builtins, providerId).value.models[0].value != ""
    ensures var p := Sidebar.FindProvider(builtins, providerId).value;
      && CurrentProvider(builtins, Some(providerId)) == p
      && ResolveModel(Some(p.models[0].value), CurrentProvider(builtins, Some(providerId))) == Some(p.models[0].value)
  {
  }

  /** An unknown selected provider falls back to the first built-in. */
  lemma UnknownProviderFallsBack(builtins: seq<Provider>, selected: string)
    requires |builtins| > 0
    requires forall i :: 0 <= i < |builtins| ==> builtins[i].id != selected
    ensures CurrentProvider(builtins, Some(selected)) == builtins[0]
  {
  }

  /** The model list of a provider only matters when the selected model is missing or empty. */
  lemma SelectedModelWins(selected: string, p1: Provider, p2: Provider)
    requires selected != ""
    ensures ResolveModel(Some(selected), p1) == ResolveModel(Some(selected), p2) == Some(selected)
  {
  }
}
