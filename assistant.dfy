/** The `RAGAssistant` object: whether a vector store and a conversation chain
    are in place, and how a question's answer and sources are shaped. The
    embedding service, FAISS and the chat model are oracles passed in as
    parameters. */
module Assistant {
  import opened Wrappers
  import opened KnowledgeBase

  /** The reply while no knowledge base has been loaded. */
  const NotLoadedMessage := "Sorry, the knowledge base is not loaded yet. Please load your documents first."

  /** The text put before an exception's message in the reply. */
  const ErrorPrefix := "Sorry, I encountered an error while processing your question: "

  /** The conversation memory's window: the chain sees the last 5 turns. */
  const MemoryWindow := 5

  /** A FAISS vector store, seen only as the chunks it indexes. */
  datatype VectorStore = VectorStore(chunks: seq<Document>)

  /** A conversational retrieval chain, bound to the retriever of the vector
      store it was set up with. */
  datatype Chain = Chain(retriever: VectorStore)

  /** One question and the answer given to it. */
  datatype Turn = Turn(question: string, answer: string)

  /** What calling the chain gives: an answer together with the metadata of the
      source documents when the result has them, or a raised exception. */
  datatype ChainResult =
    | Answered(answer: string, sourceDocuments: Option<seq<Metadata>>)
    | Raised(error: string)

  /** `if save_path:` — a path is used only when given and non-empty. */
  predicate SavesTo(savePath: Option<string>) {
    savePath.Some? && savePath.value != ""
  }

  /** Collects one source label per returned document, in order, when the
      result carries source documents, and none otherwise. */
  method CollectSources(sourceDocuments: Option<seq<Metadata>>) returns (sources: seq<string>)
    ensures sourceDocuments.None? ==> sources == []
    ensures sourceDocuments.Some? ==> |sources| == |sourceDocuments.value|
    ensures sourceDocuments.Some? ==> forall k :: 0 <= k < |sources| ==>
      sources[k] == (if "source" in sourceDocuments.value[k] then sourceDocuments.value[k]["source"] else UnknownSource)
  {
    sources := [];
    if sourceDocuments.Some? {
      var docs := sourceDocuments.value;
      var i := 0;
      while i < |docs|
        invariant 0 <= i <= |docs|
        invariant |sources| == i
        invariant forall k :: 0 <= k < i ==> sources[k] == SourceOf(docs[k])
      {
        sources := sources + [SourceOf(docs[i])];
        i := i + 1;
      }
    }
  }

  class RAGAssistant {
    const apiKey: string
    var vectorstore: Option<VectorStore>
    var conversationChain: Option<Chain>
    /** Every turn the chain has saved, oldest first. */
    var memory: seq<Turn>
    /** How many times the chain has been invoked. */
    ghost var chainCalls: nat

    /** A chain only ever exists once a vector store has been assigned. */
    ghost predicate Valid()
      reads this
    {
      apiKey != "" && (conversationChain.Some? ==> vectorstore.Some?)
    }

    /** Construction needs a non-empty API key; no store, no chain, no memory. */
    constructor (apiKey: string)
      requires apiKey != ""
      ensures Valid() && this.apiKey == apiKey
      ensures vectorstore == None && conversationChain == None
      ensures memory == [] && chainCalls == 0
    {
      this.apiKey := apiKey;
      vectorstore := None;
      conversationChain := None;
      memory := [];
      chainCalls := 0;
    }

    /** The turns the chain is shown: the last `MemoryWindow` of memory. */
    function History(): (h: seq<Turn>)
      reads this
      ensures |h| <= MemoryWindow
      ensures |h| == if |memory| < MemoryWindow then |memory| else MemoryWindow
      ensures forall k :: 0 <= k < |h| ==> h[k] == memory[|memory| - |h| + k]
    {
      if |memory| <= MemoryWindow then memory else memory[|memory| - MemoryWindow..]
    }

    /** `_setup_conversation_chain`: binds a new chain to the current store. */
    method SetupConversationChain()
      requires Valid() && vectorstore.Some?
      modifies this`conversationChain
      ensures Valid()
      ensures conversationChain == Some(Chain(vectorstore.value))
    {
      conversationChain := Some(Chain(vectorstore.value));
    }

    /** `create_vectorstore`: `build` splits and indexes the documents, `save`
        writes a store to a path. A failed build changes nothing. A failed save
        leaves the new store assigned but the previous chain in place. Otherwise
        the new store is assigned and a chain is bound to it. */
    method CreateVectorstore(documents: seq<Document>, savePath: Option<string>,
                             build: seq<Document> -> Result<VectorStore>,
                             save: (VectorStore, string) -> Result<()>)
      returns (outcome: Result<()>)
      requires Valid()
      modifies this`vectorstore, this`conversationChain
      ensures Valid()
      ensures build(documents).Err? ==>
        outcome == Err(build(documents).error) &&
        vectorstore == old(vectorstore) && conversationChain == old(conversationChain)
      ensures build(documents).Ok? ==> vectorstore == Some(build(documents).value)
      ensures build(documents).Ok? && SavesTo(savePath) && save(build(documents).value, savePath.value).Err? ==>
        outcome == Err(save(build(documents).value, savePath.value).error) &&
        conversationChain == old(conversationChain)
      ensures outcome.Ok? <==>
        build(documents).Ok? && (SavesTo(savePath) ==> save(build(documents).value, savePath.value).Ok?)
      ensures outcome.Ok? ==> conversationChain == Some(Chain(build(documents).value))
    {
      var built := build(documents);
      if built.Err? {
        return Err(built.error);
      }
      vectorstore := Some(built.value);
      if SavesTo(savePath) {
        var saved := save(built.value, savePath.value);
        if saved.Err? {
          return Err(saved.error);
        }
      }
      SetupConversationChain();
      outcome := Ok(());
    }

    /** `load_vectorstore`: `load` reads a store from a path. A failed load
        changes nothing; a successful one assigns the store and binds a chain
        to it. */
    method LoadVectorstore(loadPath: string, load: string -> Result<VectorStore>)
      returns (outcome: Result<()>)
      requires Valid()
      modifies this`vectorstore, this`conversationChain
      ensures Valid()
      ensures load(loadPath).Err? ==>
        outcome == Err(load(loadPath).error) &&
        vectorstore == old(vectorstore) && conversationChain == old(conversationChain)
      ensures load(loadPath).Ok? ==>
        outcome == Ok(()) &&
        vectorstore == Some(load(loadPath).value) && conversationChain == Some(Chain(load(loadPath).value))
    {
      var loaded := load(loadPath);
      if loaded.Err? {
        return Err(loaded.error);
      }
      vectorstore := Some(loaded.value);
      SetupConversationChain();
      outcome := Ok(());
    }

    /** `get_response`: without a chain, the fixed message and no sources, and
        the chain is not called. Otherwise the chain (`ask`) is called once with
        the windowed history and the question; an answer comes back with one
        source per returned document and is saved as a turn, while an exception
        becomes the apology with its message and no sources. The chain is only
        ever called once a vector store is in place. */
    method GetResponse(question: string, ask: (Chain, seq<Turn>, string) -> ChainResult)
      returns (answer: string, sources: seq<string>)
      requires Valid()
      modifies this`memory, this`chainCalls
      ensures Valid()
      ensures old(conversationChain).None? ==>
        answer == NotLoadedMessage && sources == [] &&
        memory == old(memory) && chainCalls == old(chainCalls)
      ensures old(conversationChain).Some? ==> chainCalls == old(chainCalls) + 1
      ensures chainCalls != old(chainCalls) ==> vectorstore.Some?
      ensures old(conversationChain).Some? ==>
        match ask(old(conversationChain).value, old(History()), question)
        case Raised(e) =>
          answer == ErrorPrefix + e && sources == [] && memory == old(memory)
        case Answered(a, docs) =>
          answer == a && memory == old(memory) + [Turn(question, a)] &&
          (docs.None? ==> sources == []) &&
          (docs.Some? ==>
             |sources| == |docs.value| &&
             forall k :: 0 <= k < |sources| ==> sources[k] == SourceOf(docs.value[k]))
    {
      if conversationChain.None? {
        return NotLoadedMessage, [];
      }
      chainCalls := chainCalls + 1;
      var result := ask(conversationChain.value, History(), question);
      match result {
        case Raised(e) =>
          answer, sources := ErrorPrefix + e, [];
        case Answered(a, docs) =>
          memory := memory + [Turn(question, a)];
          sources := CollectSources(docs);
          answer := a;
      }
    }

    /** `clear_memory`: forgets every turn; the store and the chain stay. */
    method ClearMemory()
      requires Valid()
      modifies this`memory
      ensures Valid()
      ensures memory == [] && History() == []
      ensures vectorstore == old(vectorstore) && conversationChain == old(conversationChain)
    {
      memory := [];
    }
  }
}
