# AuraChat chat-state core in Dafny

AuraChat is a browser chat client for Mistral models. This project models the
part of it that decides what the conversation state is and how it changes:

- the record types and constant tables (`Types`, `LanguageTable`);
- the two revisions of the session store, as separate modules:
  - `ChatStore`: the newer `useChatState` hook, with the load-time model
    migration, a delete that always keeps one session, a trimming rename,
    the model change and response navigation;
  - `LegacyChatStore`: the older hook that the application shell imports,
    plus the shell's inline session selection;
- the session list helpers shared by both stores (`Sessions`) and the
  message-list rules (`Transcript`);
- the session-name generator (`SessionName`), whose standalone copy and the
  copy inlined in the older store have the same logic;
- the code-block extractor (`CodeBlocks`), whose two copies have the same text;
- the send handler (`MessageHandler`) and the code-execution bookkeeping
  (`CodeExecution`), both wired to the older store as the shell wires them;
- the web-search and retrieval formatters (`WebSearch`, `Rag`) and the
  language lookups (`Language`);
- the selection rules of the page layout (`Layout`) and of the two revisions
  of the message list (`ChatContainer`, `LegacyChatContainer`).

Each store is a class `Store` whose one field `state` is the React state cell.
Each handler is a method that must leave `state` equal to a pure transition
function of the old state, and the properties are proved about those functions.
`CodeBlocks.ExtractCodeBlocks` keeps the source's `while` loop over the
regular-expression matches. Its loop invariant ties the partial text and
block list to the functions `Rebuilt` and `BlocksOf`.

Several inputs are parameters:

- Random session and block identifiers, and `Date.now()` values.
- The language-model reply, as an oracle from the request to a reply or a
  failure.
- The outcome of running code.
- The outcome of the web and vector searches.
- The outcomes of language detection, ISO code conversion and translation.
- Saved browser storage, as a value that is absent, unparsable, or a parsed
  state.

JavaScript details are written out:

- `trim` removes the ECMAScript white-space and line-terminator characters.
- Regex `\w` is `[A-Za-z0-9_]`.
- The regex scan is leftmost and non-greedy.
- `x || y` on strings treats the empty string as missing.

Places where the code does something other than what its comments or
surroundings suggest:

- **Regenerate.** The layout passes `isRegeneration = true`, but the send
  handler ignores that argument. Regenerating therefore appends a new user
  message and a new reply (`Layout.RegenerateResendsQuestion`).
- **Navigation target.** `navigateResponse` changes the *first* assistant
  message that ends a turn. The navigation buttons are attached to the *last*
  assistant message. The two differ as soon as there are two answered turns
  (`ChatContainer.NavigationControlsMismatch`).
- **Navigation with no saved original.** If a message has alternatives but no
  `originalContent`, navigating back to index 0 keeps the alternative on screen.
  The first answer is then lost (`ChatStore.NavigateWithoutOriginalLosesReply`).
- **Naming after a code block.** A first message that opens with a fenced code
  block and then a newline is named "New Chat" (`SessionName.FencedOpeningGivesDefault`).
- **Old store.** The application imports the older store. That store's delete
  can empty the list, its rename stores blank names, and its selection accepts
  unknown ids (`LegacyChatStore.DeleteLastSession`, `RenameToBlank`,
  `SelectUnknownDropsMessages`).

## Model

| member | source | states |
|---|---|---|
| Types.ModelIdInjective | src/types.ts:46-61 | different members of the model union have different id strings |
| Types.MistralModelsComplete | src/types.ts:63-79 | the model list has 15 distinct entries and contains every member of the union |
| Types.ModelCategoriesPartition | src/types.ts:87-113 | there are two categories, of 10 and 5 models, and every model is in exactly one of them |
| Types.ModelCategoriesDisjoint | src/types.ts:87-113 | no model of the first category is in the second |
| Types.ModelCategoriesDistinct | src/types.ts:87-113 | neither category lists a model twice |
| Types.ModelInfoConsistent | src/types.ts:125-246 | the info record of every model names that model and has a positive token limit |
| LanguageTable.SupportedLanguagesDistinct | src/types.ts:255-281 | the language table has 25 entries, begins with English (`en`), and its codes are pairwise distinct |
| Types.ModelInfoOf | src/types.ts:125-246 | the info record looked up for a model names that model |
| Text.TrimStart | src/hooks/useChatState/generateSessionName.ts:3 | dropping leading white space never lengthens the string; TrimStartIsSuffix and TrimStartRemovesWhitespace say what is dropped |
| Text.TrimEnd | src/hooks/useChatState/generateSessionName.ts:3 | dropping trailing white space never lengthens the string; TrimEndIsPrefix and TrimEndRemovesWhitespace say what is dropped |
| Text.Trim | src/hooks/useChatState/generateSessionName.ts:3 | the trim is no longer than what follows the leading white space; TrimIsSlice and TrimRemovesWhitespace pin it down |
| Text.TrimStartIsSuffix | src/hooks/useChatState/generateSessionName.ts:3 | dropping leading white space leaves a suffix of the input |
| Text.TrimStartRemovesWhitespace | src/hooks/useChatState/generateSessionName.ts:3 | everything dropped at the front is white space, and the rest does not start with white space |
| Text.TrimEndIsPrefix | src/hooks/useChatState/generateSessionName.ts:3 | dropping trailing white space leaves a prefix of the input |
| Text.TrimEndRemovesWhitespace | src/hooks/useChatState/generateSessionName.ts:3 | everything dropped at the back is white space, and the rest does not end with white space |
| Text.TrimIsSlice | src/hooks/useChatState/generateSessionName.ts:3 | `trim` yields a contiguous slice of its input |
| Text.TrimRemovesWhitespace | src/hooks/useChatState/generateSessionName.ts:3 | the parts cut off on both sides are white space, and the result neither starts nor ends with white space |
| Text.TrimOfTrimmed | src/hooks/useChatState/generateSessionName.ts:3 | a string without white space at either end is its own trim |
| Text.TrimIdempotent | src/hooks/useChatState/generateSessionName.ts:3 | trimming twice is trimming once |
| Text.TrimEmptyIff | src/hooks/useChatState/index.ts:114-115 | the trim is empty exactly when the input is all white space (the rename guard) |
| Text.TrimCharsFromInput | src/hooks/useChatState/generateSessionName.ts:3 | every character of the trim occurs in the input |
| Text.ContainsMiddle | src/utils/webSearchUtils.ts:69 | a string built around the query contains the query |
| Text.ContainsExtended | src/utils/webSearchUtils.ts:69 | a string that contains the query still does after more text is appended |
| Text.StartsWithExtended | src/utils/webSearchUtils.ts:69 | a prefix of a string stays a prefix after more text is appended |
| Text.StartsWithPrefixed | src/utils/webSearchUtils.ts:69 | text put in front of both a string and its prefix keeps the prefix relation |
| Text.Join | src/utils/ragUtils.ts:56 | joining no parts gives the empty string and joining one part gives that part |
| Text.JoinSnoc | src/utils/ragUtils.ts:54-56 | joining one more part appends the separator and that part |
| Text.JoinStartsWithFirst | src/utils/ragUtils.ts:54-56 | a join starts with its first part |
| Text.DigitChar | src/utils/ragUtils.ts:55 | a digit value becomes the decimal digit character for it |
| Text.NatToString | src/utils/ragUtils.ts:55 | the decimal rendering of a number is non-empty and all digits |
| Text.ParseNatToString | src/utils/ragUtils.ts:55 | reading the decimal rendering back gives the number |
| Text.NatToStringInjective | src/utils/ragUtils.ts:55 | different numbers render differently |
| Text.FirstFence | src/hooks/useChatState/generateSessionName.ts:2 | the leftmost occurrence of three backticks at or after a position, or none when there is none |
| SessionName.FirstLine | src/hooks/useChatState/generateSessionName.ts:3 | the first line is a prefix without a newline, ending at the first newline or at the end |
| SessionName.NameOfLine | src/hooks/useChatState/generateSessionName.ts:4-5 | an empty line gives "New Chat", a line of at most 40 characters is kept, a longer line is cut to 40 characters plus "..."; the name is never empty and never longer than 43 |
| SessionName.GenerateSessionName | src/hooks/useChatState/generateSessionName.ts:1-6 | the name is derived from the trimmed first line of the text with fenced pairs removed, as in NameOfLine; it is non-empty, at most 43 characters, and has no newline |
| SessionName.StripFencedFrom | src/hooks/useChatState/generateSessionName.ts:2 | the text kept from a position on is no longer than the input from that position |
| SessionName.StripFenced | src/hooks/useChatState/generateSessionName.ts:2 | removing fenced pairs never lengthens the text |
| SessionName.StripFencedFromNoPair | src/hooks/useChatState/generateSessionName.ts:2 | text with no complete fence pair from a position on is copied unchanged from there |
| SessionName.NoFencePairUnchanged | src/hooks/useChatState/generateSessionName.ts:2 | text with no complete fence pair is left as it is, so an unpaired fence stays |
| SessionName.StripFencedFromLeftmostPair | src/hooks/useChatState/generateSessionName.ts:2 | the text before the leftmost pair is kept, and the pair up to its nearest closing fence is removed |
| SessionName.FencedOpeningGivesDefault | src/hooks/useChatState/generateSessionName.ts:2-5 | a message that opens with a fenced block followed by a newline is named "New Chat" |
| SessionName.FencedSnippetExample | src/hooks/useChatState/generateSessionName.ts:2-5 | a fenced snippet followed by a long line is still named "New Chat" |
| SessionName.PlainLineName | src/hooks/useChatState/generateSessionName.ts:3-5 | a single line without backticks or surrounding white space is its own name up to 40 characters, otherwise its first 40 characters plus "..." |
| CodeBlocks.WordRunMaximal | src/utils/codeUtils.ts:4 | the `\w` run at a position consists of word characters and stops at a non-word character or the end |
| CodeBlocks.WordRunExact | src/utils/codeUtils.ts:4 | a maximal run of word characters is the run the scanner measures |
| CodeBlocks.IsMatch | src/utils/codeUtils.ts:4 | the regex as a predicate on a placement; MatchAtSound and MatchAtComplete tie it to the scanner |
| CodeBlocks.MatchAt | src/utils/codeUtils.ts:4 | a match found at a position starts there and lies inside the text |
| CodeBlocks.MatchAtSound | src/utils/codeUtils.ts:4 | a match found at a position satisfies the regex: three backticks, a non-empty `\w+` language, a newline, and a body with no backticks triple before the closing fence |
| CodeBlocks.MatchAtComplete | src/utils/codeUtils.ts:4 | every placement that satisfies the regex at a position is the one found there |
| CodeBlocks.MissingLanguageRejected | src/utils/codeUtils.ts:4 | a fence not followed by a word character does not match (as in "``` js") |
| CodeBlocks.LanguageMustEndAtNewline | src/utils/codeUtils.ts:4 | a language run followed by anything other than a newline does not match (as in "```c++") |
| CodeBlocks.NextMatch | src/utils/codeUtils.ts:10 | the next match found from a position starts at or after it and is a match at its start |
| CodeBlocks.NextMatchLeftmost | src/utils/codeUtils.ts:10 | no match starts between the search position and the match found, and none at all when nothing is found |
| CodeBlocks.NextMatchIs | src/utils/codeUtils.ts:10 | the leftmost regex match after a position is the one found |
| CodeBlocks.Matches | src/utils/codeUtils.ts:10-21 | every match listed lies inside the text; MatchesOrdered, MatchesSound and MatchesLeftmost state its order, soundness and completeness |
| CodeBlocks.Rebuilt | src/utils/codeUtils.ts:12-23 | the rebuilt text; MatchStep and NoMatchIdentity state what it is |
| CodeBlocks.BlocksOf | src/utils/codeUtils.ts:14-18 | one block per match, in order, the i-th built by `BlockOf` from the i-th match with the i-th identifier, the language tag and the trimmed body |
| CodeBlocks.MatchStep | src/utils/codeUtils.ts:10-21 | one match contributes the text before it, its normalised form (`Normalised`: fence, language, line feed, trimmed body, line feed, fence), and then the rest of the scan |
| CodeBlocks.BlocksOfSnoc | src/utils/codeUtils.ts:14-18 | one more match adds exactly its block at the end |
| CodeBlocks.ScanText | src/utils/codeUtils.ts:12-19 | after one iteration the accumulated text is still a prefix of the final text |
| CodeBlocks.ScanMatches | src/utils/codeUtils.ts:10-20 | after one iteration the matches handled are still a prefix of all matches |
| CodeBlocks.ScanStep | src/utils/codeUtils.ts:10-21 | one loop iteration keeps the scan invariant: the text so far, the blocks so far with their ids and trimmed code, and the matches handled |
| CodeBlocks.ExtractCodeBlocks | src/utils/codeUtils.ts:3-24 | the loop returns the rebuilt text and one block per regex match, in order, with the captured language and the trimmed body |
| CodeBlocks.MatchesOrdered | src/utils/codeUtils.ts:10-21 | the matches are matches, start after the scan start, and do not overlap, in left-to-right order |
| CodeBlocks.MatchesSound | src/utils/codeUtils.ts:4 | every match listed satisfies the regex |
| CodeBlocks.MatchesLeftmost | src/utils/codeUtils.ts:10 | no match is skipped: none starts before the first match, between two listed matches, or after the last |
| CodeBlocks.NoMatchIdentity | src/utils/codeUtils.ts:9-24 | content with no match gives back the same text and no blocks |
| CodeBlocks.NoFenceIdentity | src/utils/codeUtils.ts:9-24 | content without three backticks gives back the same text and no blocks |
| Transcript.FirstTurnEndFrom | src/hooks/useChatState/index.ts:155-158 | the first assistant message at or after a position that is last or followed by a user message, or none |
| Transcript.FirstTurnEndFromSameRoles | src/hooks/useChatState/index.ts:155-158 | the navigation target depends only on the roles of the messages |
| Transcript.FirstTurnEndSameRoles | src/hooks/useChatState/index.ts:155-158 | lists with the same roles have the same navigation target |
| Transcript.Reverse | src/components/ChatContainer/index.tsx:31 | the reversed copy holds the messages from last to first |
| Transcript.FindIndexByRole | src/components/ChatContainer/index.tsx:31 | the first index with the role, or -1 when no message has it |
| Transcript.LastIndexOfRole | src/components/ChatContainer/index.tsx:31-34 | the greatest index with the role, or -1 when there is none |
| Transcript.LastIndexOfRoleUnique | src/components/ChatContainer/index.tsx:31-34 | any index that is the last with the role is the one computed |
| Transcript.LastOfRole | src/components/Layout/index.tsx:62-64 | the last message with the role, or none exactly when no message has it |
| Sessions.FindSession | src/hooks/useChatState/index.ts:54 | the first session with the id, or none exactly when no session has it |
| Sessions.MapWhere | src/hooks/useChatState/index.ts:119-123 | the sessions with the id are updated and every other session is kept, in place |
| Sessions.MapWhereNoMatch | src/hooks/useChatState/index.ts:119-123 | an update of an id no session has changes nothing |
| Sessions.MapWhereKeepsIds | src/hooks/useChatState/index.ts:130-132 | an update that keeps ids keeps the set of ids |
| Sessions.Without | src/hooks/useChatState/index.ts:84 | the filtered list holds exactly the sessions whose id differs; WithoutAppend gives their order and multiplicity |
| Sessions.WithoutNoMatch | src/hooks/useChatState/index.ts:84 | filtering an id no session has keeps the list |
| Sessions.WithoutAppend | src/hooks/useChatState/index.ts:84 | filtering a concatenation concatenates the filtered parts, so kept sessions keep their order and their repetitions |
| Sessions.WithoutSnoc | src/hooks/useChatState/index.ts:84 | filtering one more session appends it exactly when its id differs |
| Sessions.WithoutFirst | src/hooks/useChatState.ts:75 | the first kept session is the first session of the input whose id differs, and every session before it has the id |
| Sessions.WithoutLast | src/hooks/useChatState/index.ts:101-103 | the last kept session is the last session of the input whose id differs, and every session after it has the id |
| Sessions.WithoutLastSkipped | src/hooks/useChatState/index.ts:101-103 | when the input ends in a session with the id, the last kept session lies before it |
| Sessions.WithoutKeepsOthers | src/hooks/useChatState/index.ts:84 | filtering keeps every other id present |
| Sessions.UpdatedCurrent | src/hooks/useChatState/index.ts:57-64 | only the session whose id is the current id is updated; the rest of the state is kept |
| Sessions.UpdatedCurrentKeepsIds | src/hooks/useChatState/index.ts:57-64 | an id-preserving update of the current session keeps ids and keeps the current session present |
| Sessions.UpdatedCurrentDangling | src/hooks/useChatState/index.ts:57-64 | with no session matching the current id, an update changes nothing |
| Sessions.AppendMessage | src/hooks/useChatState/index.ts:137-148 | the message is appended, and the session is renamed after it exactly when it is a user message and the session was empty |
| Sessions.MessageAdded | src/hooks/useChatState/index.ts:136-150 | the sessions with the current id get the message appended as AppendMessage says; the other sessions, their number and the rest of the state are kept |
| Sessions.MessageAddedFindsAppended | src/hooks/useChatState/index.ts:136-150 | after adding a message the current session is at the same position and holds the appended message |
| ChatStore.NewSession | src/hooks/useChatState/index.ts:29-35 | a new session is empty, named "New Chat", on model `mistral-large` |
| ChatStore.InitialState | src/hooks/useChatState/index.ts:29-42 | the initial state is the one `default` session, current, not loading, no error, not speaking |
| ChatStore.MigrateSession | src/hooks/useChatState/index.ts:15-21 | a session on `mistral-large` or `codestral` is kept; any other model becomes `mistral-large`; nothing else changes |
| ChatStore.Loaded | src/hooks/useChatState/index.ts:8-43 | saved data with sessions is kept with every session migrated; absent, unparsable or session-less data gives the initial state; the result always has a session |
| ChatStore.ReloadIsIdentity | src/hooks/useChatState/index.ts:8-43 | loading a loaded state again gives the same state |
| ChatStore.CurrentSession | src/hooks/useChatState/index.ts:53-55 | the first session with the current id, otherwise the first session, and none only when there are no sessions |
| ChatStore.Created | src/hooks/useChatState/index.ts:66-80 | one empty session with the given or default name and model is appended, becomes current, and the existing sessions are unchanged |
| ChatStore.CreatedIsCurrent | src/hooks/useChatState/index.ts:74-78 | with a fresh id the created session is the current session |
| ChatStore.CreatedWithTakenId | src/hooks/useChatState/index.ts:74-78 | with an id already in use the older session with that id is shown instead |
| ChatStore.Deleted | src/hooks/useChatState/index.ts:82-111 | delete never leaves zero sessions: an emptied list becomes one fresh current session; otherwise the filtered list, and the last remaining session becomes current when the current one was deleted |
| ChatStore.DeletedKeepsCurrent | src/hooks/useChatState/index.ts:101-103 | if the current session existed, a session with the current id exists after a delete |
| ChatStore.DeleteUnknownIsIdentity | src/hooks/useChatState/index.ts:101-109 | deleting an unknown id that is not the current id changes nothing |
| ChatStore.DeleteDanglingCurrent | src/hooks/useChatState/index.ts:101-103 | deleting a dangling current id keeps the sessions and makes the last one current |
| ChatStore.DeleteCurrentSelectsLastRemaining | src/hooks/useChatState/index.ts:101-103 | deleting the current session while others remain makes current the last session whose id differs |
| ChatStore.Renamed | src/hooks/useChatState/index.ts:113-125 | a blank name changes nothing; otherwise exactly the sessions with the id get the trimmed name |
| ChatStore.RenamedNameNormalised | src/hooks/useChatState/index.ts:114-121 | a stored name is non-empty without surrounding white space, and renaming again with the same text changes nothing |
| ChatStore.ModelChanged | src/hooks/useChatState/index.ts:127-134 | exactly the sessions with the id get the model's id |
| ChatStore.RenamedKeepsCurrent | src/hooks/useChatState/index.ts:113-125 | renaming keeps the current session present |
| ChatStore.ModelChangedKeepsCurrent | src/hooks/useChatState/index.ts:127-134 | a model change keeps the current session present |
| ChatStore.ModelChangeSurvivesReload | src/hooks/useChatState/index.ts:17-18 | after a reload a session changed to `codestral` stays on it and any other chosen model comes back as `mistral-large` |
| ChatStore.MessageAddedToCurrent | src/hooks/useChatState/index.ts:136-150 | adding a message appends it to the current session, renaming on the first user message |
| ChatStore.MessageAddedDangling | src/hooks/useChatState/index.ts:53-64 | with a dangling current id adding a message changes nothing, though the shown session is the first one |
| ChatStore.HandlersKeepCurrent | src/hooks/useChatState/index.ts:136-200 | adding a message and navigating keep the current session present |
| ChatStore.StepIndex | src/hooks/useChatState/index.ts:171-176 | next gives `(cur + 1) mod (n + 1)`, prev gives `(cur + n) mod (n + 1)`, and the index stays within 0..n |
| ChatStore.StepRoundTrip | src/hooks/useChatState/index.ts:171-176 | a step one way and then the other returns to the same index |
| ChatStore.StepWraps | src/hooks/useChatState/index.ts:171-176 | next from the last index wraps to 0, and prev from 0 wraps to the last |
| ChatStore.OrElse | src/hooks/useChatState/index.ts:183 | a missing or empty first string gives the second |
| ChatStore.ShowAlternative | src/hooks/useChatState/index.ts:179-193 | only the content and the alternative index of the message change; index 0 shows the saved original, or the current content when there is none, and index k > 0 shows alternative k (the text `ShownContent` picks); the index becomes k |
| ChatStore.NavTarget | src/hooks/useChatState/index.ts:155-166 | the first assistant message ending a turn, and only when it has alternatives |
| ChatStore.NavigateSession | src/hooks/useChatState/index.ts:152-199 | with no target the session is unchanged; otherwise only the target changes, stepping from its saved index (`CurrentIndex`: the saved `currentAlternativeIndex`, or 0 when it is missing): index 0 shows the original or current content, index k shows alternative k |
| ChatStore.Navigated | src/hooks/useChatState/index.ts:152-199 | the sessions with the current id are navigated as NavigateSession says; the other sessions, their number and the rest of the state are kept |
| ChatStore.NavigateRoundTrip | src/hooks/useChatState/index.ts:168-193 | when the shown content matches the saved index and an original is saved, navigating and navigating back restores the session |
| ChatStore.NavigateWithoutOriginalLosesReply | src/hooks/useChatState/index.ts:179-185 | with no saved original, two steps forward over one alternative leave the alternative shown at index 0 |
| ChatStore.Store.constructor | src/hooks/useChatState/index.ts:8-43 | the store starts from the loaded state |
| ChatStore.Store.GetCurrentSession | src/hooks/useChatState/index.ts:53-55 | returns the shown session of the state |
| ChatStore.Store.UpdateCurrentSession | src/hooks/useChatState/index.ts:57-64 | the new state is the old one with the current session updated |
| ChatStore.Store.HandleCreateSession | src/hooks/useChatState/index.ts:66-80 | returns the new id and performs Created |
| ChatStore.Store.HandleDeleteSession | src/hooks/useChatState/index.ts:82-111 | performs Deleted |
| ChatStore.Store.HandleRenameSession | src/hooks/useChatState/index.ts:113-125 | performs Renamed |
| ChatStore.Store.HandleChangeModel | src/hooks/useChatState/index.ts:127-134 | performs ModelChanged |
| ChatStore.Store.AddMessage | src/hooks/useChatState/index.ts:136-150 | performs MessageAdded on the current session |
| ChatStore.Store.NavigateResponse | src/hooks/useChatState/index.ts:152-200 | performs NavigateSession on the current session |
| LegacyChatStore.NewSession | src/hooks/useChatState.ts:23-28 | a new session is empty, with the given name, and has no model |
| LegacyChatStore.Loaded | src/hooks/useChatState.ts:18-36 | a parsed state is returned as saved; unparsable data makes the load throw; absent data gives the one `default` session as current |
| LegacyChatStore.LoadedFreshIsConsistent | src/hooks/useChatState.ts:23-35 | the fresh state's current id names a session |
| LegacyChatStore.CurrentSession | src/hooks/useChatState.ts:42-44 | a session with the current id when there is one, and none exactly when there is none |
| LegacyChatStore.Created | src/hooks/useChatState.ts:55-67 | one empty session is appended and becomes current; the existing sessions are unchanged |
| LegacyChatStore.CreatedHasCurrent | src/hooks/useChatState.ts:62-66 | after a create the current id names a session |
| LegacyChatStore.Deleted | src/hooks/useChatState.ts:69-78 | all sessions with the id are removed; the first remaining session becomes current, or the empty id when none remain |
| LegacyChatStore.DeleteLastSession | src/hooks/useChatState.ts:69-78 | deleting the only session leaves no sessions and no shown session |
| LegacyChatStore.DeleteOtherMovesSelection | src/hooks/useChatState.ts:75 | deleting a session other than the current one can still move the selection |
| LegacyChatStore.DeleteSelectsFirstRemaining | src/hooks/useChatState.ts:71-75 | a delete that leaves sessions makes current the first session whose id differs |
| LegacyChatStore.DeletedCurrentIffNonEmpty | src/hooks/useChatState.ts:71-75 | after a delete the current id names a session exactly when sessions remain |
| LegacyChatStore.Renamed | src/hooks/useChatState.ts:80-87 | exactly the sessions with the id get the new name as given |
| LegacyChatStore.RenameToBlank | src/hooks/useChatState.ts:84 | a blank name is stored |
| LegacyChatStore.Selected | src/App.tsx:48 | selection sets the current id and nothing else |
| LegacyChatStore.SelectUnknownDropsMessages | src/App.tsx:48 | after selecting an unknown id nothing is shown and added messages are dropped |
| LegacyChatStore.Store.constructor | src/hooks/useChatState.ts:18-36 | the store starts from the state of a load that does not throw |
| LegacyChatStore.Store.GetCurrentSession | src/hooks/useChatState.ts:42-44 | returns the session with the current id, if any |
| LegacyChatStore.Store.UpdateCurrentSession | src/hooks/useChatState.ts:46-53 | the new state is the old one with the current session updated |
| LegacyChatStore.Store.HandleCreateSession | src/hooks/useChatState.ts:55-67 | performs Created |
| LegacyChatStore.Store.HandleDeleteSession | src/hooks/useChatState.ts:69-78 | performs Deleted |
| LegacyChatStore.Store.HandleRenameSession | src/hooks/useChatState.ts:80-87 | performs Renamed |
| LegacyChatStore.Store.AddMessage | src/hooks/useChatState.ts:89-103 | performs MessageAdded on the current session |
| LegacyChatStore.Store.HandleSelectSession | src/App.tsx:48 | performs Selected |
| MessageHandler.AssistantMessage | src/hooks/useMessageHandler.ts:43-50 | the reply becomes an assistant message with the extracted text and code blocks and no alternatives |
| MessageHandler.UserMessage | src/hooks/useMessageHandler.ts:21-26 | the typed content becomes a user message with the voice flag and the time, and no code blocks, alternatives or saved original |
| MessageHandler.Turns | src/hooks/useMessageHandler.ts:37-40 | each message is sent as its role and content only, in order |
| MessageHandler.Request | src/hooks/useMessageHandler.ts:32-41 | when a current session exists, the request is its model plus its pre-send messages and the new user message; otherwise the request fails |
| MessageHandler.RequestIsTranscript | src/hooks/useMessageHandler.ts:32-33 | the request is exactly the current session's messages after the user message is added |
| MessageHandler.AfterSend | src/hooks/useMessageHandler.ts:12-69 | unconfigured sets the key error only; a failure adds the user message and sets the reply error; a reply adds both messages and clears loading and error |
| MessageHandler.SendAppends | src/hooks/useMessageHandler.ts:12-69 | a send adds 0, 1 or 2 messages to the current session as configured and successful, sets the matching error and ends not loading |
| MessageHandler.HandleSendMessage | src/hooks/useMessageHandler.ts:12-69 | makes a request only when configured, moves the store to AfterSend, and asks to speak the reply text only for a voice message with a reply |
| CodeExecution.UpdateBlocks | src/hooks/useCodeExecution.ts:5-15 | only blocks with the id are updated; message count, order, other fields and missing block lists are kept |
| CodeExecution.UpdateBlocksTwice | src/hooks/useCodeExecution.ts:5-41 | two by-id updates in a row equal one update by their composition |
| CodeExecution.Started | src/hooks/useCodeExecution.ts:5-15 | the block keeps its id, language and code, is marked executing, and loses its output and error |
| CodeExecution.Settled | src/hooks/useCodeExecution.ts:17-41 | the block keeps its id, language and code and stops executing; a run sets the output and keeps the error, a throw sets the error and keeps the output |
| CodeExecution.Executed | src/hooks/useCodeExecution.ts:4-43 | only the current session can change, through `InSession` (its blocks updated by UpdateBlocks); the other sessions, their number and the rest of the state are kept |
| CodeExecution.Outcome | src/hooks/useCodeExecution.ts:17-41 | a finished block is not executing and shows the output on success, the error and no output on failure |
| CodeExecution.ExecutedNetEffect | src/hooks/useCodeExecution.ts:4-43 | the start and finish updates together set each matching block of the current session to its outcome |
| CodeExecution.HandleExecuteCode | src/hooks/useCodeExecution.ts:4-43 | the store ends in the state of the start update followed by the finish update for the run's result |
| WebSearch.SearchWeb | src/utils/webSearchUtils.ts:20-41 | four results with their fixed addresses |
| WebSearch.SearchWebMentionsQuery | src/utils/webSearchUtils.ts:20-41 | every title and snippet contains the query |
| WebSearch.Entry | src/utils/webSearchUtils.ts:55 | a result renders as "### [", its title, "](", its address, ")", a newline, its snippet and a newline, each read back at its position |
| WebSearch.FormatSearchResults | src/utils/webSearchUtils.ts:49-57 | no results give the fixed sentence; one result gives its entry; otherwise the text starts with the first entry and differs from that sentence (`Entries` renders each result in order) |
| WebSearch.FormatSnoc | src/utils/webSearchUtils.ts:54-56 | one more result appends a newline and its entry, so entries keep their order |
| WebSearch.PerformWebSearch | src/utils/webSearchUtils.ts:60-74 | a failed search gives the fixed error sentence; otherwise the header (`Header`: the fixed heading around the query), the formatted results and the note |
| WebSearch.ReportStarts | src/utils/webSearchUtils.ts:69 | a report of results opens with the header and the first entry |
| WebSearch.ReportNamesQuery | src/utils/webSearchUtils.ts:69 | a report contains the query |
| WebSearch.ReportOfFixedSearch | src/utils/webSearchUtils.ts:60-69 | the report of the built-in search opens with its first result and names the query |
| Rag.Entry | src/utils/ragUtils.ts:55 | the passage at position i is labelled "### Result" with the number i + 1 and a newline, followed by its text and a newline |
| Rag.FormatSearchResults | src/utils/ragUtils.ts:49-57 | no passages give the fixed sentence; one passage gives its entry; otherwise the text starts with "### Result 1" (`Entries` numbers each passage by its position) |
| Rag.FormatSnoc | src/utils/ragUtils.ts:54-56 | one more passage appends a newline and its entry numbered after the others |
| Rag.LabelsDistinct | src/utils/ragUtils.ts:55 | entries at different positions differ, whatever their passages |
| Rag.PerformRag | src/utils/ragUtils.ts:60-72 | the formatted passages, and the no-information sentence when the search failed |
| Language.FindFrom | src/utils/languageUtils.ts:78 | the first table entry with the code, or none when no entry has it |
| Language.LanguageName | src/utils/languageUtils.ts:77-80 | an unsupported code gives "Unknown" |
| Language.NativeLanguageName | src/utils/languageUtils.ts:87-90 | an unsupported code gives "Unknown" |
| Language.FindEntry | src/utils/languageUtils.ts:77-90 | every table entry is found by its code (`Find`, the first entry with the code), with its name and native name |
| Language.LanguageSystemPrompt | src/utils/languageUtils.ts:97-102 | the prompt is exactly the fixed lead "Please respond in ", then `Names` (the English name and the native name in parentheses), then the fixed instruction tail, each read back at its position |
| Language.UnknownPrompt | src/utils/languageUtils.ts:97-102 | an unsupported code gives a prompt with "Unknown (Unknown)" |
| Language.EnglishPrompt | src/utils/languageUtils.ts:97-102 | English gives a prompt with "English (English)" |
| Language.DetectLanguage | src/utils/languageUtils.ts:15-36 | always a supported code: the converted detection when it is supported, otherwise English |
| Language.OrDetected | src/utils/languageUtils.ts:52 | a non-empty given source language is used as it is; otherwise the detected language, which is supported |
| Language.TranslateText | src/utils/languageUtils.ts:45-70 | the text is unchanged when source equals target or the service fails; otherwise the service's translation |
| Language.TranslateSameLanguage | src/utils/languageUtils.ts:52-57 | translating into the given source language returns the text unchanged |
| Layout.Regenerate | src/components/Layout/index.tsx:61-69 | nothing is sent exactly when the session has no user message; otherwise the last user message's content and voice flag, as a regeneration |
| Layout.RegenerateResendsQuestion | src/components/Layout/index.tsx:61-67 | after a question and its replies the question is re-sent and becomes a user message with the same content |
| Layout.ModelPicked | src/components/Layout/index.tsx:103 | the model change keeps the current id and the number of sessions |
| Layout.ModelPickTargetsShownSession | src/components/Layout/index.tsx:103 | after the pick the shown session is the previously shown session with the new model |
| ChatContainer.Props | src/components/ChatContainer/index.tsx:49-61 | one props record per message, the one PropsAt gives at its position |
| ChatContainer.PropsAt | src/components/ChatContainer/index.tsx:53-59 | the props of one message; PropsGating states the gating |
| ChatContainer.PropsGating | src/components/ChatContainer/index.tsx:53-59 | the flag sits exactly on the assistant message with no later assistant message; regenerate, navigate and search go only there; speaking only on the final message |
| ChatContainer.AtMostOneRegenerate | src/components/ChatContainer/index.tsx:55 | at most one message gets the regenerate handler, and it is an assistant message |
| ChatContainer.SomeAssistantFlagged | src/components/ChatContainer/index.tsx:31-34 | with an assistant message present, the last one is flagged |
| ChatContainer.NavigationControlsMismatch | src/components/ChatContainer/index.tsx:55-58 | with two answered turns the navigate handler sits on the second answer while navigation changes the first |
| ChatContainer.SearchResultsMessage | src/components/ChatContainer/index.tsx:36-40 | a message is sent exactly when a send handler exists, and it is the analysis prompt followed by the results |
| ChatContainer.SearchResultsMessageInjective | src/components/ChatContainer/index.tsx:36-40 | different results give different messages |
| LegacyChatContainer.Props | src/components/ChatContainer.tsx:60-69 | one props record per message, the one PropsAt gives at its position |
| LegacyChatContainer.PropsAt | src/components/ChatContainer.tsx:64-67 | the props of one message; PropsGating states the gating |
| LegacyChatContainer.PropsGating | src/components/ChatContainer.tsx:64-67 | the flag sits exactly on the assistant message with no later assistant message; the regenerate handler only there; speaking only on the final message |
| LegacyChatContainer.AtMostOneRegenerate | src/components/ChatContainer.tsx:66 | at most one message gets the regenerate handler, and it is an assistant message |

## Left out

- Browser storage and JSON: saving on every change, `JSON.parse` and the shape checks made on parsed data. Load takes an already-parsed value, or says that parsing failed.
- Identifiers from `Math.random` and timestamps from `Date.now()` are parameters. Nothing is claimed about their uniqueness.
- String lengths count Unicode scalar values, not UTF-16 code units. So the 40-character cut of a session name differs from JavaScript's for characters outside the Basic Multilingual Plane.
- `currentAlternativeIndex` is a natural number. Negative or fractional values in hand-edited saved data are not modelled.
- React's batching, stale closures and the interleaving of awaited calls. The send handler reads the state before the user message was added and applies its updates in order.
- `executeCode` runs arbitrary JavaScript, so its result (output or thrown message) is a parameter.
- Speech synthesis and the `setTimeout` that delays it: the handler returns the text it would speak.
- The delay inside `searchWeb`, its unreachable inner `catch`, and the unreachable outer `catch` of `performRAG`.
- Text splitting, embeddings and the vector search of the retrieval helper are one oracle outcome.
- franc, the ISO 639 conversion, the translation service and the Mistral client are oracle parameters.
- Rendering, CSS, and the handlers every message receives (code execution, speech). The message-list props record only the gated handlers.
- The UI-side trim and empty checks in the session list and the input box, the truncated `MainContent` and `Sidebar` components, and the older `Layout.tsx`.
- Document parsing and OCR, the voice settings, clipboard use and the regenerate debounce timer.
- Behaviour the source does not implement is not modelled: recording regenerated alternatives, a request window, or a system prompt in the request.
- Layout.ModelPicked: requires a non-empty session list, because the layout's `currentSession` prop is required and the newer store always has a session.
- ChatStore.NavigateSession: the source copies the message array and writes one slot of the copy. The model states the same result as an update of an immutable sequence.
- LegacyChatStore.Store.constructor: requires a load that does not throw. Unparsable saved data (the `None` of Loaded) makes the original hook throw at start-up, so no store exists.
