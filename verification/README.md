# DMS-CCA core, modelled in Dafny

DMS-CCA is a multi-agent chat platform. An Express/Mongoose backend stores users, AI agents and per-(user, agent) conversations. It tags every user message with an emotion label found by keyword scoring, and builds the prompt for one of two model providers (Ollama or Gemini). A React frontend provides login, a dashboard, the chat page and a profile form.

This project models the deterministic logic of that system as pure Dafny functions over immutable data:

- **Store.** The MongoDB collections become one value `Db(users, agents, conversations)` of sequences (`Schema`). Each store-changing handler is a function that returns the new store together with its response (`Handled`). The response is either `Ok(status, value)` or `Error(status, message)`, and the statuses and messages are the handler's own.
- **Schema.** The three Mongoose models become datatypes. Their enumerations (message role, emotion label, preferred length, creator type) are Dafny enums with parse/name round trips, and the `required` checks and defaults are validation functions.
- **Backend handlers.** These cover signup, login, account and per-agent data deletion, agent creation and listing, the admin operations, the two middlewares, the dashboard statistics, the profile update and the chat turn.
- **Services.** The emotion detector (`EmotionService`) is modelled together with the prompt and request assembly of the two providers (`OllamaService`, `GeminiService`, sharing `Provider`). The provider call itself is an oracle parameter that returns a `Completion`, `Success(text)` or `Failure`.
- **Frontend logic.** This covers:
  - the stored-user helpers over a key/value storage (`AuthStorage`);
  - the auth context state machine (`AuthContext`);
  - the route guard (`ProtectedRoute`);
  - the auth form submission (`AuthSubmit`);
  - the profile form's comma-list join and parse (`EditProfile`);
  - the dashboard's greeting, ordering and counters (`Dashboard`);
  - the chat page's discovery merge, agent search, send cycle and discovery prompt (`ChatPage`).

`Wrappers`, `Seqs` and `Text` hold the shared vocabulary: options and responses; filter, count, dedup and subsequence; and lower-casing, containment, split, join and trim.

## Model

| member | source | states |
|---|---|---|
| Schema.ParseRole | Backend/src/models/Conversation.model.js:5-9 | a message role is accepted exactly when it is "user" or "assistant" |
| Schema.RoleRoundTrip | Backend/src/models/Conversation.model.js:5-9 | each role's stored name is accepted as that role, and a name accepted as a role is that role's name |
| Schema.ParseLabel | Backend/src/models/Conversation.model.js:14-26 | an emotion string is accepted exactly when it is one of the seven enum names |
| Schema.LabelRoundTrip | Backend/src/models/Conversation.model.js:14-26 | each label's name is accepted as that label, and an accepted name is the label's own name |
| Schema.ParseLength | Backend/src/models/Agent.model.js:56-60 | a preferred length is accepted exactly when it is "small", "medium" or "long" |
| Schema.LengthRoundTrip | Backend/src/models/Agent.model.js:56-60 | each length's name is accepted as that length, and an accepted name is the length's own name |
| Schema.ParseCreatorType | Backend/src/models/Agent.model.js:45-49 | a creator type is accepted exactly when it is "admin" or "user" |
| Schema.CreatorTypeRoundTrip | Backend/src/models/Agent.model.js:45-49 | each creator type's name is accepted as that type, and an accepted name is the type's own name |
| Schema.WithoutPassword | Backend/src/models/User.model.js:3-11 | the password-free view of a user keeps every other field of the user unchanged |
| Schema.ValidateMessage | Backend/src/models/Conversation.model.js:3-29 | a message is accepted iff its role is present and in the enum, its content is present and non-empty, and its emotion is absent or in the enum; the accepted message has the given role and content, and the given emotion or "neutral" by default |
| Schema.NewConversation | Backend/src/models/Conversation.model.js:31-51 | a new conversation belongs to the given user and agent and has no messages |
| Schema.ValidateAgent | Backend/src/models/Agent.model.js:3-63 | an agent is accepted iff name and prompt are present and non-empty, the creator is present, the creator type is in its enum and the length is absent or in its enum; the accepted agent copies the given fields and takes the schema defaults ("", "Bot", "from-blue-500 to-cyan-500", false, false, false, "medium") for the absent ones |
| Schema.NewUser | Backend/src/models/User.model.js:3-11 | a new user has the given name, email and password, the role "user", no birth date and empty interest and trait lists |
| AuthController.ValidEmailIsRegex | Backend/src/controllers/auth.controller.js:23-24 | the email check accepts a text exactly when it is `a@b.c` for non-empty runs `a`, `b`, `c` without white space or '@' |
| AuthController.ValidEmailMeaning | Backend/src/controllers/auth.controller.js:23-24 | the email check accepts a text exactly when the text has no white space, exactly one '@' with something before it, and after the '@' a '.' that is neither the first character of the domain nor the last character |
| AuthController.ValidEmailInWords | Backend/src/controllers/auth.controller.js:23-24 | every accepted email has the shape described in words (one direction of the equivalence) |
| AuthController.InWordsValidEmail | Backend/src/controllers/auth.controller.js:23-24 | every text of the shape described in words is accepted (the other direction) |
| AuthController.Signup | Backend/src/controllers/auth.controller.js:10-56 | a missing field and a password shorter than 6 UTF-16 units are refused with their messages and leave the store alone; every refusal is a 400 that changes nothing; a 201 happens only for a well-formed email and a long enough password, appends exactly one user with a fresh id, the given name and email and the hashed password, and answers its id, name and email |
| AuthController.SignupEmailChecks | Backend/src/controllers/auth.controller.js:22-29 | once the presence and length checks pass, a malformed email is refused as "Invalid email format", a registered email as "Email already exists", and signup succeeds exactly when the email is well formed and unused |
| AuthController.SignupKeepsValid | Backend/src/controllers/auth.controller.js:28-48 | signup keeps user ids and emails unique across the store |
| AuthController.Login | Backend/src/controllers/auth.controller.js:72-94 | a missing field is refused with "Email and password are required"; a 200 happens only for a stored user with that email whose password matches, and answers that user's id, name, email and role |
| AuthController.LoginHidesWhichFailed | Backend/src/controllers/auth.controller.js:80-85 | an unknown email and a wrong password for the (unique) stored email both answer the same 400 "Invalid credentials" |
| AuthController.LoginSucceeds | Backend/src/controllers/auth.controller.js:72-98 | with unique emails, given fields, a stored user with that email and a matching password log in with a 200 carrying that user's id, name, email and role |
| AuthController.DeleteAccountData | Backend/src/controllers/auth.controller.js:128-147 | afterwards the users are unchanged, a conversation remains iff it was there and is not the user's, an agent remains iff it was there and was not created by the user; the session cookie is cleared; the answer is 200 with "All account data deleted successfully" and the numbers of the user's conversations and agents |
| AuthController.DeleteAccountDataExact | Backend/src/controllers/auth.controller.js:132-147 | what remains is an order-preserving subsequence of each collection, and the remaining count plus the reported count equals the original count |
| AuthController.ClearAgentChat | Backend/src/controllers/auth.controller.js:154-174 | a missing agent id is a 400 that changes nothing; otherwise users and agents are unchanged, a conversation remains iff it was there and is not of this (user, agent) pair, and the answer is "Agent chat history cleared successfully" with how many of the pair's conversations there were |
| AuthController.ClearAgentChatAtMostOne | Backend/src/controllers/auth.controller.js:163-172 | when the store holds at most one conversation per pair, clearing removes at most one, keeps the rest in order, and the counts add up |
| AgentController.OwnedBody | Backend/src/controllers/agent.controller.js:11-15 | the body handed to creation has the requester as creator and "admin"/"user" by the requester's role, whatever the request said, and agrees with the request on every other field |
| AgentController.CreateAgent | Backend/src/controllers/agent.controller.js:3-21 | a missing or empty name or prompt is a 400 that changes nothing; a failure changes nothing; a 500 happens exactly when name and prompt are given and either the preferred length is outside its enum or the body's `_id` is already an agent's id; a success appends exactly the new agent, whose id no stored agent had and is the body's `_id` when one was given |
| AgentController.CreateAgentOwnership | Backend/src/controllers/agent.controller.js:11-15 | a created agent belongs to the requester, is an admin agent exactly when the requester is an admin, and takes every other field from the body or from the schema default |
| AgentController.CreateAgentKeepsValid | Backend/src/controllers/agent.controller.js:11-16 | creation keeps agent ids unique |
| AgentController.GetAgents | Backend/src/controllers/agent.controller.js:23-31 | an agent is listed exactly when it is stored and is public or created by the requester |
| AgentController.GetAgentsOrder | Backend/src/controllers/agent.controller.js:25-31 | the listing keeps store order, contains every public agent and every agent of the requester, and nothing else |
| AdminController.GetAllUsers | Backend/src/controllers/admin.controller.js:4-8 | one entry per stored user, in store order, each the user without the password |
| AdminController.DeleteUser | Backend/src/controllers/admin.controller.js:14-25 | an unknown id is a 404 "User not found" that changes nothing; otherwise that user alone is removed from the users, agents and conversations stay, and the answer is "User deleted" |
| AdminController.DeleteUserExact | Backend/src/controllers/admin.controller.js:16-20 | with unique ids, deletion succeeds exactly when a user has the id, afterwards a user is stored iff it was stored and has another id, and exactly one user fewer is stored on success |
| AdminController.GetAllAgents | Backend/src/controllers/admin.controller.js:27-31 | every stored agent, in store order, unfiltered |
| AdminController.DeleteAgent | Backend/src/controllers/admin.controller.js:38-63 | every refusal is the same 403 and changes nothing; a success answers the deleted id; users and conversations are never touched |
| AdminController.DeleteAgentOwnerOnly | Backend/src/controllers/admin.controller.js:42-51 | with unique ids, an agent is deleted exactly when it exists and the requester created it; then it alone goes and the count drops by one |
| AdminController.DeletionsKeepValid | Backend/src/controllers/admin.controller.js:14-63 | both deletions keep the store's uniqueness invariants |
| AdminMiddleware.IsAdmin | Backend/src/middleware/admin.middleware.js:1-14 | no user is a 401 "Unauthorized", a user whose role is not "admin" is a 403 "Admin only" |
| AdminMiddleware.IsAdminDecision | Backend/src/middleware/admin.middleware.js:1-14 | the request goes on exactly for a present user with role "admin"; a refusal is a 401 or a 403, and the 401 is exactly the missing user |
| AuthMiddleware.IsAuth | Backend/src/middleware/auth.middleware.js:5-24 | no token is "No token provided"; a token that does not verify is "Invalid or expired token"; a verified token whose user is gone is "Session invalid. Please login again." with the cookie cleared; otherwise the request goes on with that user without the password |
| AuthMiddleware.TokenPrecedence | Backend/src/middleware/auth.middleware.js:7 | a non-empty cookie wins over the header; otherwise a header "scheme token" yields the token after the space; with neither there is no token |
| AuthMiddleware.NoSpaceNoToken | Backend/src/middleware/auth.middleware.js:7 | a header with no space yields no token |
| AuthMiddleware.ProceedOnlyWithUser | Backend/src/middleware/auth.middleware.js:7-19 | the request goes on only for a token that verifies to the id of a stored user, handing on that user without the password; the cookie is cleared exactly when the token verifies but no stored user has its id |
| EmotionService.OrderShape | Backend/src/services/emotion.service.js:8-15 | the table holds the six non-neutral categories, each once, in declaration order |
| EmotionService.KeywordsShape | Backend/src/services/emotion.service.js:8-15 | no category lists a keyword twice and no keyword is empty |
| EmotionService.Detect | Backend/src/services/emotion.service.js:29-34 | the raw label always equals the detected emotion |
| EmotionService.PickCorrect | Backend/src/services/emotion.service.js:18-27 | the loop ends holding the maximal score over the table and, unless that is 0, the first category reaching it; neutral is kept exactly when the maximum is 0 |
| EmotionService.ScoreZero | Backend/src/services/emotion.service.js:22 | a category scores 0 exactly when none of its keywords occurs in the lower-cased text |
| EmotionService.ScoreCountsDistinctKeywords | Backend/src/services/emotion.service.js:22 | a category's score is the number of its distinct keywords occurring in the text, however often each occurs |
| EmotionService.ScoreBelowMax | Backend/src/services/emotion.service.js:21-27 | no category scores above the maximal score |
| EmotionService.MaxScoreZero | Backend/src/services/emotion.service.js:21-27 | the maximal score is 0 exactly when no keyword of any category occurs |
| EmotionService.DetectSpec | Backend/src/services/emotion.service.js:4-34 | the result is neutral exactly when no keyword occurs; otherwise it is the first category in table order with the maximal score (a tie keeps the earlier category); confidence is 0.8 when some keyword occurs and 0.5 otherwise; intensity is high above 2, medium above 0, low at 0 |
| EmotionService.WinnerUnique | Backend/src/services/emotion.service.js:23-26 | because only a strictly greater score replaces the winner, at most one position can win |
| EmotionService.DetectCaseInsensitive | Backend/src/services/emotion.service.js:5 | detecting on a lower-cased text gives the same result as on the text itself |
| EmotionService.DetectEmpty | Backend/src/services/emotion.service.js:18-34 | the empty message is neutral, confidence 0.5, intensity low |
| EmotionService.DetectLabelStorable | Backend/src/services/emotion.service.js:19-25 | every detected label's name is accepted by the Message schema's emotion enum as that label |
| ChatController.FindConversation | Backend/src/controllers/chat.controller.js:29-32 | a found position holds a conversation of the (user, agent) pair; when none is found, no conversation of the pair exists |
| ChatController.FindOrCreate | Backend/src/controllers/chat.controller.js:29-40 | the result position holds a conversation of the pair; an existing one is reused with the store unchanged, otherwise a new empty one is appended at the end |
| ChatController.SendMessage | Backend/src/controllers/chat.controller.js:6-61 | a missing message is 400 "Message is required", then a missing agent id 400 "Agent ID is required", then an unknown agent 404 "Agent not found", each changing nothing; users and agents are never changed; a success is a 200 carrying the detector's full result for the message |
| ChatController.StoredLabelIsDetected | Backend/src/controllers/chat.controller.js:25-26 | the stored label is the detected label (the "neutral" fallback never applies) and the schema accepts it |
| ChatController.HistoryEndsWithUserTurn | Backend/src/controllers/chat.controller.js:43-50 | the generator's history is the persona turn, every earlier message, then the user's new words as the last turn |
| ChatController.TurnAppendsTwo | Backend/src/controllers/chat.controller.js:42-61 | with a non-empty reply, the pair's conversation gains exactly the user turn and then the assistant turn, both with the detected label; the reply is the one generated from the history that includes the user's words; every other conversation is unchanged; the answer carries the reply and the detector's result |
| ChatController.EmptyReplyFails | Backend/src/controllers/chat.controller.js:53-64 | an empty reply fails the required check on save: the answer is 500 and only the find-or-create step persists |
| ChatController.FindOrCreateKeepsPairsUnique | Backend/src/controllers/chat.controller.js:29-40 | find-or-create keeps at most one conversation per (user, agent) pair |
| ChatController.SendMessageKeepsValid | Backend/src/controllers/chat.controller.js:6-61 | every turn keeps the store's invariants |
| Provider.Persona | Backend/src/services/ollama.service.js:29 | the persona is never empty: a non-empty system prompt is used as given, an absent or empty one becomes the default persona |
| Provider.TemperatureChoice | Backend/src/services/ollama.service.js:83 | the temperature is 0.4 or 0.7, and the lower value exactly for "sad" and "lonely" (for the detector's labels, exactly Sad and Lonely) |
| Provider.FallbackStorable | Backend/src/services/ollama.service.js:90-93 | the fallback reply is accepted by the Message schema as assistant content with any label, so a failed call still yields a storable turn |
| OllamaService.FormatMessages | Backend/src/services/ollama.service.js:71-77 | the outbound list is the prompt as a system entry followed by one entry per turn with the same content, "assistant" kept and every other role sent as "user" |
| OllamaService.BuildRequest | Backend/src/services/ollama.service.js:79-87 | every request names "llama3.1:latest", uses top-p 0.9, does not stream, and takes its temperature from the emotion (default "neutral") |
| OllamaService.GetOllamaReply | Backend/src/services/ollama.service.js:79-93 | the reply is the provider's content verbatim on success and the fixed fallback on failure |
| OllamaService.PromptOpensWithPersona | Backend/src/services/ollama.service.js:28-29 | the prompt starts with the system-instruction line carrying the persona, then a blank line |
| OllamaService.PromptStatesEmotion | Backend/src/services/ollama.service.js:38-40 | the prompt contains the line naming the emotion (default "neutral") and the confidence marker after it |
| OllamaService.ConfidenceMarkerChoice | Backend/src/services/ollama.service.js:40 | the marker is "N/A" exactly when the emotion is absent or "neutral", and "High" otherwise |
| OllamaService.PromptStatesLengthTwice | Backend/src/services/ollama.service.js:43-57 | the preferred length (default "medium") appears both in the preference line and in behavioural rule 8 |
| OllamaService.ProfileBlockInserted | Backend/src/services/ollama.service.js:16-25 | giving a profile inserts its block right after the confidence line and changes nothing else in the prompt |
| OllamaService.ProfileBlockOpensWithName | Backend/src/services/ollama.service.js:18-20 | the block opens with its heading and the name line, the name defaulting to "User" |
| OllamaService.ProfileBlockLines | Backend/src/services/ollama.service.js:21-23 | the block holds the birth-date line (default "Unknown") and "Not specified" for an empty interest or trait list |
| OllamaService.ProfileBlockListsEach | Backend/src/services/ollama.service.js:22-23 | every listed interest and every listed trait occurs in the block |
| OllamaService.OnlyFirstEntryIsSystem | Backend/src/services/ollama.service.js:71-77 | only the leading entry has the role "system"; every later entry is "user" or "assistant" whatever the stored roles were |
| OllamaService.RequestShape | Backend/src/services/ollama.service.js:71-85 | the request carries the context prompt first and each turn's content after it, a temperature of 0.4 exactly for a sad or lonely user, and top-p 0.9 |
| GeminiService.History | Backend/src/services/gemini.service.js:45-61 | the history is a user turn holding the persona, a blank line and the emotion guide, then one single-part entry per turn, "model" exactly for "assistant" and "user" otherwise |
| GeminiService.BuildRequest | Backend/src/services/gemini.service.js:9-74 | every session names "gemini-2.5-flash", caps output at 250 tokens, uses top-p 0.9, sends the fixed instruction and takes its temperature from the emotion (default "neutral") |
| GeminiService.GetGeminiReply | Backend/src/services/gemini.service.js:63-80 | the reply is the response text on success and the fixed fallback on failure |
| GeminiService.FirstTurnText | Backend/src/services/gemini.service.js:14-15 | the first turn is a single user part starting with the persona, a blank line and the emotional-state line |
| GeminiService.RequestSettings | Backend/src/services/gemini.service.js:63-74 | the generation settings and the message sent do not depend on the prompt or the conversation, and the temperature is 0.4 exactly for a sad or lonely user |
| GeminiService.SameTurnsAsOllama | Backend/src/services/gemini.service.js:57-60 | both generators pass the same turns in the same order with the same content; the Gemini role is "model" exactly where the Ollama role is "assistant" |
| UserController.DashboardAgents | Backend/src/controllers/user.controller.js:22-27 | an agent is listed exactly when it is stored and is a default agent or created by the requester |
| UserController.GetDashboardStats | Backend/src/controllers/user.controller.js:5-34 | totalChats is the number of the user's conversations, defaultAgents the number of default agents whoever created them, customAgents the number of custom agents the user created; the listing holds, in store order, the summary of each default or own agent |
| UserController.DashboardCountsBounded | Backend/src/controllers/user.controller.js:13-27 | the default count and the custom count never exceed the number of agents listed, since every default agent and every custom agent of the requester is listed |
| UserController.DefaultCountIsGlobal | Backend/src/controllers/user.controller.js:12-13 | the default-agent count is the same whoever asks |
| UserController.TotalChatsCountsAgents | Backend/src/controllers/user.controller.js:9-10 | with one conversation per (user, agent) pair, the chat count is the number of distinct agents the user has a conversation with |
| UserController.DashboardChatsAreAgents | Backend/src/controllers/user.controller.js:9-10 | with one conversation per (user, agent) pair, the dashboard's chat count is the number of distinct agents the user has talked to |
| UserController.UpdateProfile | Backend/src/controllers/user.controller.js:44-70 | an unknown user is a 404 "User not found"; a failure changes nothing; the answer is 500 exactly when the resulting email is held by another user (the unique index); a success is a 200 "Profile updated successfully"; agents and conversations are never touched |
| UserController.UpdateProfileTouchesTwoFields | Backend/src/controllers/user.controller.js:46-62 | a successful update sets the name and the email to the values sent (an absent one keeps its stored value) and changes no other field and no other user; the answer is the stored record without its password |
| UserController.UpdateProfileIgnoresOtherFields | Backend/src/controllers/user.controller.js:46-51 | two bodies that agree on name and email have the same effect, whatever birth date, interests or traits they carry |
| UserController.UpdateProfileKeepsValid | Backend/src/controllers/user.controller.js:49-53 | an update keeps user ids and emails unique |
| AuthStorage.GetItem | frontend/src/utils/auth.js:4 | a value is read exactly when the key is present, and it is the stored value |
| AuthStorage.GetStoredUser | frontend/src/utils/auth.js:2-10 | an absent or empty "user" entry gives no user; otherwise the user is whatever parsing the stored text gives (nothing when parsing throws) |
| AuthStorage.GetStoredUserRole | frontend/src/utils/auth.js:12-14 | a role is reported exactly when a non-empty "userRole" entry is stored, and it is that entry |
| AuthStorage.RolesExclusive | frontend/src/utils/auth.js:20-26 | the user-role and admin-role tests are never both true, and each holds exactly when that role is stored |
| AuthStorage.ClearAuthDataExact | frontend/src/utils/auth.js:16-31 | clearing removes exactly the "user" and "userRole" entries, keeps every other entry and its value, and afterwards no user is stored and no role test holds |
| AuthContext.CheckAuth | frontend/src/context/AuthContext.jsx:14-33 | checking always ends; a user is set exactly when the response is ok and its body parses, and then it is that body |
| AuthContext.Login | frontend/src/context/AuthContext.jsx:39-41 | logging in sets the given user and leaves the checking flag alone |
| AuthContext.Logout | frontend/src/context/AuthContext.jsx:43-48 | logging out forgets the user, keeps the checking flag, and removes exactly the two auth entries from storage, every other entry kept |
| AuthContext.UserRole | frontend/src/context/AuthContext.jsx:60 | a role is reported exactly for a signed-in user with a non-empty role, and it is that role |
| AuthContext.FlagsAgree | frontend/src/context/AuthContext.jsx:11-12 | on mount no one is signed in, checking is under way and there is no role; a role is only ever reported for a signed-in user |
| AuthContext.LogoutClearsEverything | frontend/src/context/AuthContext.jsx:43-48 | logging out clears the same entries as the storage helper, and afterwards neither the context nor storage reports a signed-in user |
| AuthContext.LoginAfterLogout | frontend/src/context/AuthContext.jsx:39-48 | logging in after logging out gives the same state as logging in directly |
| ProtectedRoute.GuardTable | frontend/src/components/ProtectedRoute.jsx:5-27 | an unauthenticated visitor goes to /auth whatever the roles; the children render exactly for an authenticated user with no requirement or the required role; on a mismatch admins go to /admin, users to /dashboard, anyone else to /; an authenticated user is never sent to /auth |
| ProtectedRoute.GuardWithContext | frontend/src/components/ProtectedRoute.jsx:6-26 | fed from the context, the guard renders exactly for a signed-in user whose role meets the requirement |
| AuthSubmit.BuildRequest | frontend/src/pages/auth/useAuthSubmit.js:32-40 | login mode posts email and password to the login endpoint; every other mode posts name, email and password to the signup endpoint |
| AuthSubmit.SubmitAuth | frontend/src/pages/auth/useAuthSubmit.js:10-77 | a submission while loading does nothing; navigation happens only to "/", only after a request was sent, and only with no error shown |
| AuthSubmit.ValidationOrder | frontend/src/pages/auth/useAuthSubmit.js:13-26 | a missing email or password is reported first in every mode; register mode then requires a full name and then a matching confirmation; a failed check sends nothing; a request is sent exactly when every check passes |
| AuthSubmit.ConfirmationNeverSent | frontend/src/pages/auth/useAuthSubmit.js:37-48 | the request sent is the mode's request, and the confirmation never changes it |
| AuthSubmit.LoadingSettles | frontend/src/pages/auth/useAuthSubmit.js:42-76 | loading is false after every submission; a network failure, an unparsable body and a refused request each show their message (the server's message, else "Authentication failed") and do not navigate; an accepted request clears the error and navigates to "/" |
| EditProfile.InitialText | frontend/src/components/EditProfileModal.jsx:9-10 | a missing list opens as ""; a present list opens as its items joined by ", " (the `|| ''` fallback changes nothing, since an empty join is already "") |
| EditProfile.ParsedItemsGood | frontend/src/components/EditProfileModal.jsx:45-46 | every parsed item is non-empty, trimmed and comma-free, and the items are the trimmed pieces in order, duplicates kept |
| EditProfile.ParseEmpty | frontend/src/components/EditProfileModal.jsx:45-46 | the empty text parses to no items |
| EditProfile.ParseJoin | frontend/src/components/EditProfileModal.jsx:9-46 | joining parser-shaped items with ", " and parsing the text gives the items back |
| EditProfile.ParseJoinParse | frontend/src/components/EditProfileModal.jsx:9-46 | parsing, re-joining and parsing again gives the first parse |
| EditProfile.InitialTextRoundTrip | frontend/src/components/EditProfileModal.jsx:9-46 | a list field left untouched parses back to the stored list when its items are parser-shaped, and a missing list parses to nothing |
| EditProfile.InitialForm | frontend/src/components/EditProfileModal.jsx:5-11 | with no user every field is ""; otherwise name, email and birth date are the user's |
| EditProfile.InitialFormRoundTrip | frontend/src/components/EditProfileModal.jsx:5-46 | saving the form with the list fields untouched gives the stored interests and traits back, when their items are parser-shaped |
| EditProfile.UpdateBody | frontend/src/components/EditProfileModal.jsx:25-32 | the body sent holds all five form fields, the read-only email included |
| EditProfile.LocalUser | frontend/src/components/EditProfileModal.jsx:43-49 | the user handed to the success callback has the parsed form lists and otherwise equals the server's record |
| EditProfile.SaveKeepsEmailAndLists | frontend/src/components/EditProfileModal.jsx:18-49 | in a valid store, saving a form opened on a stored user succeeds whatever was typed, keeps the email, stores the new name, leaves the stored birth date and lists as they were, and only the copy handed to the callback shows the edited lists |
| Dashboard.UserName | frontend/src/pages/Dashboard.jsx:69 | the greeting name is never empty and never contains a space |
| Dashboard.UserNameIsFirstWord | frontend/src/pages/Dashboard.jsx:69 | the greeting is the name's first word, the longest prefix without a space; it is "User" exactly when there is no user, the name is empty or it starts with a space |
| Dashboard.IconComponent | frontend/src/pages/Dashboard.jsx:37-48 | a name the icon map holds gives its own icon; a name every object inherits from `Object.prototype` ("constructor", "toString", ...) gives the inherited member, not Bot; every other name gives Bot |
| Dashboard.Cards | frontend/src/pages/Dashboard.jsx:205-214 | one card per fetched agent, in the same order, each carrying the agent's id, name, mapped icon, colour, description and default flag |
| Dashboard.InsertDefault | frontend/src/pages/Dashboard.jsx:215-220 | inserting a default card into "defaults, then others" places it after the last default |
| Dashboard.InsertCustom | frontend/src/pages/Dashboard.jsx:215-220 | a non-default card is inserted at the end |
| Dashboard.SortPartitions | frontend/src/pages/Dashboard.jsx:215-220 | the sort gives the default cards in their original order followed by the others in their original order |
| Dashboard.DisplayedOrder | frontend/src/pages/Dashboard.jsx:205-220 | the shown cards are a permutation of the fetched ones, every default card comes before every other card, and each group keeps its fetched order |
| Dashboard.DeleteButtonsTrail | frontend/src/pages/Dashboard.jsx:362-370 | the delete button shows exactly on the non-default cards, and in the shown list those cards come last |
| Dashboard.Loaded | frontend/src/pages/Dashboard.jsx:119-120 | the fetched answer replaces all four fields of the page's data |
| Dashboard.OnCreate | frontend/src/pages/Dashboard.jsx:134-140 | a created agent raises the custom count by one and goes first in the list, everything else kept |
| Dashboard.OnDelete | frontend/src/pages/Dashboard.jsx:161-166 | a deletion lowers the custom count by one (whatever kind the agent was) and removes every card with that id; the remaining cards keep their order and every other card keeps its number of copies |
| Dashboard.DeleteUndoesCreate | frontend/src/pages/Dashboard.jsx:134-166 | deleting the agent just created, when no other card shares its id, restores the data exactly |
| Dashboard.StatTile | frontend/src/pages/Dashboard.jsx:187-202 | a tile shows "..." exactly while loading, and otherwise its count |
| ChatPage.MergeList | frontend/src/pages/Chat.jsx:217-218 | the merged list holds exactly the values of the current and the discovered list, each once, as a subsequence of the current list followed by the discovered one and in the order of each value's first occurrence there; a missing list counts as empty |
| ChatPage.MergeKeepsCurrent | frontend/src/pages/Chat.jsx:217 | a duplicate-free current list survives as the prefix of the merge, in order: only new values are appended |
| ChatPage.MergeIdempotent | frontend/src/pages/Chat.jsx:217-218 | merging the same discoveries a second time changes nothing |
| ChatPage.MergeCaseSensitive | frontend/src/pages/Chat.jsx:217 | the set compares strings exactly: two different single values, even ones differing only in case, are both kept in order, and a value merged with itself is kept once |
| ChatPage.AcceptDiscoveryAsWrittenFails | frontend/src/pages/Chat.jsx:213-242 | as written, accepting a discovery never sends an update, leaves storage unchanged and always shows the failure toast |
| ChatPage.AcceptDiscovery | frontend/src/pages/Chat.jsx:213-242 | with the reader in scope: no stored user gives the failure toast and no request; a stored user sends the merged lists; an ok answer writes the serialized user under "user" with the success toast, a non-ok answer shows nothing and a thrown request shows the failure toast, both leaving storage as it was; no other entry ever changes |
| ChatPage.MergedUpdate | frontend/src/pages/Chat.jsx:217-226 | each list sent holds exactly the stored and the discovered values of that list |
| ChatPage.AcceptDiscoverySends | frontend/src/pages/Chat.jsx:216-226 | the update sent contains every stored and every discovered value exactly once, with the stored interests first in their order |
| ChatPage.DiscoveryUpdateStoresNothing | Backend/src/controllers/user.controller.js:44-62 | a body with only the two lists leaves the store unchanged and answers with the stored record: accepted discoveries are never persisted |
| ChatPage.Search | frontend/src/pages/Chat.jsx:336-340 | an agent is listed exactly when its lower-cased name, or its description when present, contains the lower-cased query |
| ChatPage.SearchOrder | frontend/src/pages/Chat.jsx:336-340 | the search keeps list order, and the empty query lists every agent |
| ChatPage.SearchCaseInsensitive | frontend/src/pages/Chat.jsx:338-339 | a query and its lower-cased form find the same agents |
| ChatPage.NoAgentsFoundIff | frontend/src/pages/Chat.jsx:388-395 | the "No agents found" line shows exactly when no agent matches the query |
| ChatPage.BeginSend | frontend/src/pages/Chat.jsx:244-257 | a send is a no-op exactly when the trimmed input is empty, there is no agent or a send is in flight; otherwise the input is appended as a user entry, the box is cleared and the flag is raised |
| ChatPage.FinishSend | frontend/src/pages/Chat.jsx:267-299 | the in-flight flag drops on every path and the input box is untouched; a refused or broken request leaves the list as it is |
| ChatPage.SendReplacesOptimistic | frontend/src/pages/Chat.jsx:254-274 | after a successful send the list is the earlier entries, then the user's words, then the reply: the optimistic entry is gone and nothing else changes |
| ChatPage.DiscoveryPrompt | frontend/src/pages/Chat.jsx:277-291 | the discovery prompt shows exactly when discoveries came back with at least one non-empty list |
| ChatPage.DiscoveryPromptListsAll | frontend/src/pages/Chat.jsx:278-284 | the prompt names every discovered interest and trait |
| ChatPage.AsSendResult | Backend/src/controllers/chat.controller.js:61 | the handler's ok answer carries the reply and no discoveries |
| ChatPage.NoPromptFromHandler | frontend/src/pages/Chat.jsx:277 | after any turn the handler answers, the discovery prompt does not show |

## Left out

- Persistence: MongoDB, connection set-up and ObjectId generation are replaced by in-memory sequences. Ids are abstract naturals, and a new record gets an id larger than every existing one (`Schema.FreshId`).
- Timestamps (`createdAt`/`updatedAt`, message dates) are not stored. On the chat page a timestamp is an opaque number supplied by the caller.
- Database failures are not modelled, so the generic 500 of every `catch` is left out. The exceptions are the failures the model does decide: schema validation (an unknown preferred length, an empty assistant reply), the unique email index, and the unique `_id` index when an agent is created with a body `_id`.
- The Ollama client and the Gemini SDK are oracle parameters returning `Success(text)` or `Failure`; a thrown exception is a `Failure`.
- `prompt_enhancer.service.js` is not part of this model. It is a wrapper over a provider call.
- bcrypt hashing and comparison, JWT signing and verification, and `JSON.parse`/`JSON.stringify` are oracle parameters. `AuthStorage.GetStoredUser` folds "the parse throws" and "the value is not a user" into one `None`.
- Several parts of the auth controller are left out because they are I/O with no decision logic of their own:
  - the token cookie written by `generateToken`;
  - the welcome e-mail after signup;
  - the `updateProfile` of the auth controller, which uploads the profile picture to Cloudinary;
  - `logout`, which only clears a cookie. The cookie clear of `deleteAccountData` is kept, as a flag on its answer.
- No preferred-length-to-token table exists: the Gemini request fixes its output cap at 250.
- No parser for the discovery block exists. The Ollama prompt only asks the model for one, and the reply is returned verbatim.
- Routing and wiring (`app.js`, `routes/*.js`) are not part of this model.
- Rendering, toasts, navigation, scrolling, `setTimeout`/reload, animations and particle randomness are not modelled. Only the state the pages compute is.
- The chat page's agent and history fetches, and its delete-agent and clear-chat confirmations, are left out. They only forward to the backend handlers, which are modelled (`AdminController.DeleteAgent`, `AuthController.ClearAgentChat`), and then reset local lists.
- Temperatures and confidences are written as exact rationals (`real` literals). No floating-point rounding is modelled.
- `Text.ToLower` lower-cases only the ASCII letters A-Z. JavaScript's `toLowerCase` also folds non-ASCII letters, so emotion detection and the agent search agree with the source on ASCII text only.
- `Dashboard.DisplayedOrder` models `Array.prototype.sort` as a stable insertion sort. Stability is guaranteed by the language standard since ECMAScript 2019, and the comparator returns 0 within a group.
- `Seqs.CountWhere` counts positions (`countDocuments` counts documents); the store holds no duplicate documents, so the two agree.
- Request bodies are assumed to carry strings (or nothing) in every field: `LoginBody`, `SignupBody`, `ProfileBody` and `ChatBody` hold `Option<string>` or an id, and `AgentInput` holds strings, booleans and ids. Express's JSON body can carry any value, and an object such as `{"$ne": ""}` as the login email would become a MongoDB query operator in `User.findOne`; no member expresses such an input.
- `Dashboard.IconComponent` says which value the icon lookup yields; what React then does with an inherited member (rendering `Object` for "constructor" throws) is rendering, which is not modelled.
- AgentController.CreateAgent: a body `_id` is modelled as an id like any other, so a malformed one (which Mongoose fails to cast, answering 500) cannot be expressed; and `isDefault`, `isCustom` and `isPublic` are typed booleans, so Mongoose's casting of strings such as "true" or "yes", and the 500 for a value it cannot cast, are not modelled.
- Asynchrony is not modelled: every handler and event handler runs as one sequential step.

Behaviours of the code worth knowing:

- On a tie between non-zero scores the first category in table order wins, not `neutral`.
- The chat handler gives the generator the history including the user turn it has just pushed.
- `updateProfile` writes only the name and the e-mail. The lists sent by the profile form and by the accept-discovery button are therefore never stored (`EditProfile.SaveKeepsEmailAndLists`, `ChatPage.DiscoveryUpdateStoresNothing`).
- The chat handler's answer carries no `discoveries` field, so the discovery prompt never shows (`ChatPage.NoPromptFromHandler`).

## Findings

| source | as written | input that shows it | evidently intended | confidence | as-written member | corrected member |
|---|---|---|---|---|---|---|
| frontend/src/pages/Chat.jsx:216 | `handleAcceptDiscovery` calls `getStoredUser`, which the page never imports, so the first statement throws a ReferenceError; the catch shows "Failed to update profile" and no request is sent | any click on Accept, with any stored user and any discoveries | read the stored user, merge the discovered values into its lists and PUT the merged lists to the profile endpoint | not executed | ChatPage.AcceptDiscoveryAsWrittenFails | ChatPage.AcceptDiscoverySends |
