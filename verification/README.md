# Verified models of the chat service, the bank and the command-line shell

This project models three programs and proves what they keep true over whole runs.

* **The chat** (`Unix_Chat_Service`). A server keeps an array of client structs, polls their FIFOs, reads at most one
  message per ready client in a pass of its main loop, and relays it to every client. When a client leaves, the array
  is shifted left under the running loop index, the ready flag of the client that moved into the served slot is
  cleared, and that client is skipped. A client process edits lines in a bounded buffer, sends them, and at the end
  sends one DEPARTED.
* **The bank** (`Java_Servlet_Banking_App`). One user's money is kept several times over: as a running total, as
  balances of accounts, as a numbered map of transactions, as key lists of accounts and as three lists of names.
* **The shell** (`Unix_Command_Line_Shell`). Command lines are cut into tokens in place, jobs go from INIT to RUN to
  EXIT(n) as their processes report, and a finished job's output is read into a buffer that doubles as it fills.

## How the files fit together

| file | content |
|---|---|
| `ServerModel.dfy`, `Server.dfy` | the effect of each server handler on values, and the server class over its array |
| `BroadcastLog.dfy` | what the log of all broadcasts alone says about each client |
| `Protocol.dfy` | the server and any number of client processes as one state machine, and its invariant over all runs |
| `ChatProperties.dfy`, `BoundedService.dfy` | what every run guarantees |
| `MainLoop.dfy` | the main loop itself, with clients writing between any two handlers, as runs of the state machine |
| `Delivery.dfy` | what is read in time is delivered to everyone, in every run and for the main loop over its array |
| `JoinService.dfy` | how long a join waits, in every run and for the main loop over its array |
| `EndToEnd.dfy` | from the keys typed at one client to the log, and from the log to what one client shows |
| `Limits.dfy` | runs that fill the server, and shut it down with clients in it |
| `LineEditor.dfy`, `ChatClient.dfy`, `Typing.dfy` | the line editor, the two threads of a client, and what typing comes to |
| `BankLedger.dfy`, `BankOperations.dfy`, `BankProperties.dfy`, `BankProgram.dfy` | the bank on values, what each call does to it, its properties, and its objects |
| `CStrings.dfy`, `PipeReader.dfy` | strings in memory, and the doubling buffer |
| `Tokenizer.dfy`, `TokenizerProgram.dfy` | words of a line, and `strtok` in place |
| `Jobs.dfy`, `JobProperties.dfy`, `JobHistory.dfy`, `JobProgram.dfy` | the job table on values, its properties, sessions told as histories, and its records |

Classes and arrays carry the code that updates things in place; each of their methods is proved equal to a function on
values, and the theorems about runs are lemmas about those functions.

## Conventions

* A FIFO is a queue without bound that remembers all that was ever written to it and how much was read. A client is
  known by a number, the process id after which both its FIFOs are named; a number is not used twice in a run.
* The log of broadcasts and the counts of closed pipes are history kept for the proofs.
* `Blocked` is a state of the chat machine in which the server has started to read from an empty FIFO. No step is
  assumed away to avoid it; `ReadsNeverBlock` proves that it is not reached.
* Amounts of money are whole numbers of cents. `case null` in the decompiled switch statements of the bank is read as
  the one enum constant that has no case of its own, DEPOSIT or BROKERAGE.
* A missing account is an outcome (`NullPointer`), with whatever was already changed before the exception.
* `read` on the pipe of a finished child returns as many bytes as were asked for or all that are left.
* What enlarged memory holds before it is written to is a parameter, a function from places in the buffer to bytes.
* A line at the prompt is the text that one call of `fgets` returns.

## Where the code differs from its description

* `Unix_Chat_Service/README.md` says that messages go to all other clients, and the README at the top speaks of private
  messages. The code sends every message to every client, the sender included, and has no private ones.
* A join that finds the table full is still announced to everyone, and never followed by a departure. The log tells who
  is connected exactly in the runs in which every join that was taken found room (`MembershipByName`); 257 joins make a
  run in which it does not (`FullTableRefuses`).
* The removal loop of a shutdown is meant to remove every client. It leaves those at odd positions (`ShutdownLeaves`),
  one of two for example (`ShutdownLeavesHalf`).
* A transfer reports success without looking at its second half. For an amount that is not negative that half cannot
  fail; for a negative one it can, and money appears (`TransferConservesIff`, `NegativeTransferMakesMoney`).
* Starting a command when the job table is full drops the command and starts the last job once more
  (`StartJobOkIff`); so a finished job can be running again (`FullTableRestartsFinished`).
* Output with a NUL byte is kept as it was written if it fits the first read of 1024 bytes, and otherwise in general not:
  later blocks go to the first NUL in the buffer. `HeldIsStreamIff` and `OutputIsRecalledIff` say exactly which output
  is safe, and `OutputIsLost` gives 1026 bytes that are not.
* A client that leaves cancels its own server thread, so it need not show all it was sent (`ShowChat`, `AllIsShown`).

## Model

| member | source | states |
|---|---|---|
| ServerProgram.ChatServer.AddClient | Unix_Chat_Service/server.c:46-68 | a joiner goes to the end of the table with its flag down, or nowhere if all 256 slots are taken; slots keep distinct FIFOs |
| ServerProgram.ChatServer.RemoveClient | Unix_Chat_Service/server.c:71-91 | the shifting loop leaves exactly the table without that slot, in order |
| ServerProgram.ChatServer.Broadcast | Unix_Chat_Service/server.c:94-104 | the writing loop gives the message once to every connected client and to nobody else |
| ServerProgram.ChatServer.CheckSources | Unix_Chat_Service/server.c:107-132 | the flag of each source is raised exactly if it has data, whatever the others have, and none is lowered |
| ServerProgram.ChatServer.HandleJoin | Unix_Chat_Service/server.c:140-156 | the handler takes one join, adds it if there is room, and announces it either way |
| ServerProgram.ChatServer.HandleClient | Unix_Chat_Service/server.c:165-184 | one message is read; the flag is cleared in the slot by index, which after a departure is the successor's |
| ServerProgram.ChatServer.Shutdown | Unix_Chat_Service/server.c:24-43 | everyone is sent SHUTDOWN, and then the upward removal loop runs |
| ServerProgram.ChatServer.RemoveAll | Unix_Chat_Service/server.c:39-42 | the loop over the array, which removes by increasing index while the table shrinks under it, is the loop on values |
| ChatProperties.RemoveUpwardsFrom | Unix_Chat_Service/server.c:39-42 | from any point of it on, that loop ends with the odd positions of the table it began with |
| MainLoop.Pass | Unix_Chat_Service/bl-server.c:26-37 | one turn of the main loop ends and is a run of the state machine with exactly one pass end, whatever clients write between any two handlers |
| MainLoop.ActIsARun | Unix_Chat_Service/bl-client.c:27-59 | whatever clients want to do between two handlers comes to a run of their own steps |
| Protocol.RunKeepsInv | Unix_Chat_Service/bl-server.c:26-37 | every state of every run, with clients interleaved at will and a stop at any time, satisfies the invariant |
| Protocol.HandleClientKeepsInv | Unix_Chat_Service/server.c:165-184 | a ready slot has a message to read, and handling it keeps flags, table, FIFOs and log in agreement |
| Protocol.HandleJoinKeepsInv | Unix_Chat_Service/server.c:140-156 | a join keeps them in agreement, accepted or refused |
| Protocol.PollKeepsLive | Unix_Chat_Service/server.c:107-132 | polling keeps the ready flags truthful |
| Protocol.ShutdownKeepsHistory | Unix_Chat_Service/server.c:24-43 | a shutdown keeps what each client was sent equal to its part of the log |
| BroadcastLog.ReceivedOfAppend | Unix_Chat_Service/server.c:94-104 | one more broadcast extends the slice of the log of exactly the clients in the chat after it |
| BroadcastLog.WithoutIsRemoveAt | Unix_Chat_Service/server.c:82-89 | taking a member out by its channel is taking out the slot that held it |
| ChatProperties.Agreement | Unix_Chat_Service/server.c:94-104 | all a client was ever sent is one contiguous slice of one log, from its own JOINED to just before its own DEPARTED |
| ChatProperties.TotalOrder | Unix_Chat_Service/server.c:94-104 | of two connected clients the later one has seen exactly the end of what the earlier one saw |
| ChatProperties.NoLoss | Unix_Chat_Service/server.c:165-184 | relayed messages followed by unread ones are what the sender wrote, in order; a closed FIFO holds nothing unread |
| ChatProperties.ReadsNeverBlock | Unix_Chat_Service/server.c:107-132 | in every reachable state a raised flag means data in that client's own FIFO, so no read blocks |
| ChatProperties.Membership | Unix_Chat_Service/server.c:45-91 | the table is the replay of the log: in join order, without duplicates, at most 256, exactly those who joined and did not leave |
| ChatProperties.MembershipByName | Unix_Chat_Service/server.c:140-156 | connected names are joined less departed less refused names, and joined less departed exactly if every join taken in the run found fewer than 256 clients |
| ChatProperties.RefusedIff | Unix_Chat_Service/server.c:46-50 | a run refuses nobody exactly if every join it takes finds room |
| Limits.FullTableRefuses | Unix_Chat_Service/server.c:140-156 | a run of 257 joins after which the log says that 257 are connected, and 256 are |
| ChatProperties.ShutdownIsLast | Unix_Chat_Service/server.c:28-38 | everyone connected at the stop gets exactly one SHUTDOWN as its last message, and nobody else gets one |
| ChatProperties.ShutdownLeaves | Unix_Chat_Service/server.c:39-42 | the removal loop leaves the clients at odd positions, so it empties the table exactly when there is at most one client |
| Limits.ShutdownLeavesHalf | Unix_Chat_Service/server.c:39-42 | for every n up to 256 a run in which a shutdown of n clients leaves half of them |
| ChatProperties.RemoveDownwardsLeaves | Unix_Chat_Service/server.c:39-42 | counting down from n instead stays in the table and removes exactly the first n slots, all of them for n clients |
| BoundedService.BoundedService | Unix_Chat_Service/bl-server.c:26-37 | in every run a client at position p with n unread messages has them read within p + n passes, its next one within p + 1 |
| BoundedService.ReadWithinBudget | Unix_Chat_Service/bl-server.c:26-37 | the same from any point inside a pass, with the exact number of pass ends that can still come |
| BoundedService.HandleClientMoves | Unix_Chat_Service/server.c:165-184 | another client's position drops, by one, exactly when a client before it departs, and its flag survives unless it falls into the served slot |
| BoundedService.ReadOncePerPass | Unix_Chat_Service/bl-server.c:32-36 | no client is read twice between two pass ends |
| Delivery.BoundedDelivery | Unix_Chat_Service/bl-server.c:26-37 | within those p + n passes the n messages are, in order and once each, among what everyone who was in the chat and has not left was sent |
| Delivery.RelayedIsSent | Unix_Chat_Service/server.c:94-104 | each relayed message stands among the messages sent |
| Delivery.RunPasses | Unix_Chat_Service/bl-server.c:26-37 | k turns of the main loop over its array are a run with exactly k pass ends |
| Delivery.ServeInTime | Unix_Chat_Service/bl-server.c:26-37 | so many turns of the main loop over its array deliver the next n messages of a client |
| JoinService.NoJoinLost | Unix_Chat_Service/server.c:140-156 | in every run the joins announced, then those not yet taken, are the joins sent, in order |
| JoinService.BoundedJoins | Unix_Chat_Service/bl-server.c:26-37 | in every run n waiting joins are taken and announced within n passes, in order, however much clients say; with room for all, those processes are in the chat |
| JoinService.TakeJoinsInTime | Unix_Chat_Service/bl-server.c:26-37 | the same for n turns of the main loop over its array |
| LineEditor.Simpio.GetChar | Unix_Chat_Service/simpio.c:66-95 | one key edits the buffer by the rule for lines; a line is ready exactly on Enter or EOT with text, the input ends exactly on EOT or EOF |
| LineEditor.Simpio.Reset | Unix_Chat_Service/simpio.c:40-47 | line and flags start over |
| CStrings.CString | Unix_Chat_Service/bl-client.c:42-43 | a copied body is the buffer up to its first NUL |
| ChatClient.ReadLine | Unix_Chat_Service/bl-client.c:32-34 | the inner loop stops where a line is ready, the input ends or the keys run out |
| ChatClient.UserToServer | Unix_Chat_Service/bl-client.c:27-59 | for any stream of keys the thread sends exactly the session the keys stand for, and leaves exactly if the input ends |
| ChatClient.ReadingIsSession | Unix_Chat_Service/bl-client.c:27-54 | key by key editing, with Enter ignored on an empty line, agrees with cutting the stream into lines first |
| ChatClient.SessionShape | Unix_Chat_Service/bl-client.c:35-54 | messages of 1 to 1023 characters under the own name for keys without NUL, then DEPARTED last and only if the input ends |
| ChatClient.SessionGrows | Unix_Chat_Service/bl-client.c:28-46 | more typing never takes back what was sent, and keys after the end of input send nothing |
| ChatClient.EraseUndoes | Unix_Chat_Service/simpio.c:80-91 | a character and its erasure cancel out exactly while the line is not full |
| Typing.OneKey | Unix_Chat_Service/simpio.c:80-91 | keys 8 and 127 take the last character, and any other character is put at the end, up to 1023 |
| Typing.CharactersAreTyped | Unix_Chat_Service/simpio.c:66-95 | each character of a line stands on a key of its own, in order |
| Typing.PlainLine | Unix_Chat_Service/simpio.c:86-91 | plain text makes the line of its first 1023 characters |
| Typing.ErasuresTake | Unix_Chat_Service/simpio.c:80-85 | m erasures take the last m characters, or all |
| Typing.EnterSends | Unix_Chat_Service/bl-client.c:28-47 | Enter sends the edited line up to a NUL if it is not empty, and what follows is a session of its own |
| Typing.EotSendsAndLeaves | Unix_Chat_Service/bl-client.c:28-54 | EOT sends the edited line and then the departure, and later keys send nothing |
| Typing.EofLeaves | Unix_Chat_Service/simpio.c:92-94 | the end of the input drops the line and sends the departure |
| Typing.LinesAreSent | Unix_Chat_Service/bl-client.c:28-47 | lines of 1 to 1023 plain characters are sent as they were typed, in order |
| Typing.Converse | Unix_Chat_Service/bl-client.c:27-59 | the user thread over such lines and EOT sends exactly those texts and one departure |
| Typing.SayOne | Unix_Chat_Service/bl-client.c:27-47 | the user thread over one such line sends exactly one message with that text |
| ChatClient.ServerToUser | Unix_Chat_Service/bl-client.c:62-85 | the thread shows every message up to and including the first SHUTDOWN, then stops |
| EndToEnd.SessionIsAllowed | Unix_Chat_Service/bl-client.c:27-54 | a client driven by its keys can always write the next message of its session |
| EndToEnd.DrivenIsOnScript | Unix_Chat_Service/bl-client.c:27-54 | in every run in which a client is driven by its keys it has written the start of its session, whatever the others do |
| EndToEnd.TypedIsRelayed | Unix_Chat_Service/bl-client.c:27-54 | in every such run the chat is relayed the start of what was typed, and all of it once the departure is relayed |
| EndToEnd.ShowChat | Unix_Chat_Service/bl-client.c:62-85 | whatever part of its FIFO the server thread reads before it is cancelled, it shows that part of the log from the own JOINED on, and stops by itself exactly at the SHUTDOWN |
| EndToEnd.AllIsShown | Unix_Chat_Service/bl-client.c:54-85 | a client that has not left shows everything broadcast since its own JOINED, and stops exactly if the server stopped |
| EndToEnd.ShownIsLog | Unix_Chat_Service/bl-client.c:62-81 | what is shown is one line for each broadcast read, in the wording of its kind |
| EndToEnd.LinesTellApart | Unix_Chat_Service/bl-client.c:69-76 | a line tells the kind, the name and the text of its message, if no name holds a bracket |
| BankProgram.Transaction.constructor | Java_Servlet_Banking_App/BankingAppSrc/src/classes/Transaction.java:21-31 | the resulting balance is the account's balance at that moment |
| BankProgram.BankAccount.constructor | Java_Servlet_Banking_App/BankingAppSrc/src/classes/BankAccount.java:19-27 | a positive opening balance is recorded as the first deposit, and no other is |
| BankProgram.BankAccount.DepositOrWithdraw | Java_Servlet_Banking_App/BankingAppSrc/src/classes/BankAccount.java:29-60 | a deposit always goes through, a withdrawal if the balance covers it, a transfer leg if it brings money or is covered; balance and total move together |
| BankProgram.BankAccount.MakeTransaction | Java_Servlet_Banking_App/BankingAppSrc/src/classes/BankAccount.java:29-46 | on the object graph the call does what the ledger operation does, to this account alone |
| BankProgram.BankAccount.GetAllTransactions | Java_Servlet_Banking_App/BankingAppSrc/src/classes/BankAccount.java:79-84 | the account's replayed ledger reversed: its transactions, latest first, each with the running sum up to it |
| BankProgram.User.StoreTransaction | Java_Servlet_Banking_App/BankingAppSrc/src/classes/User.java:113-117 | a transaction is stored under the next number, which is returned |
| BankProgram.User.AddAccount | Java_Servlet_Banking_App/BankingAppSrc/src/classes/User.java:58-73 | the object graph after an opening is the ledger after it, also for a name that exists |
| BankProgram.User.RemoveAccount | Java_Servlet_Banking_App/BankingAppSrc/src/classes/User.java:75-99 | the same for a removal, with its refusal and its exception |
| BankProgram.User.MakeTransfer | Java_Servlet_Banking_App/BankingAppSrc/src/classes/User.java:101-111 | the same for a transfer, with all four ends it can come to |
| BankProgram.PerformAll | Java_Servlet_Banking_App/BankingAppSrc/src/classes/User.java:58-125 | the object graph after any calls is the ledger after them, and allowed calls keep its books right |
| BankLedger.SumWithout | Java_Servlet_Banking_App/BankingAppSrc/src/classes/User.java:24 | the sum of balances does not depend on the order of the hash map |
| BankOperations.OpeningIs | Java_Servlet_Banking_App/BankingAppSrc/src/classes/User.java:58-73 | an opening gives the account the type, balance and place in the lists asked for, and records a positive balance as its first deposit |
| BankOperations.RemovalIs | Java_Servlet_Banking_App/BankingAppSrc/src/classes/User.java:75-99 | with the books right an account is removed exactly if its balance is 0, from the map and its list and nothing else; otherwise nothing changes |
| BankOperations.DepositIs | Java_Servlet_Banking_App/BankingAppSrc/src/classes/BankAccount.java:29-52 | a deposit returns true, moves the account and the total by the amount and adds one deposit record |
| BankOperations.WithdrawalIs | Java_Servlet_Banking_App/BankingAppSrc/src/classes/BankAccount.java:29-60 | a withdrawal returns true exactly if the balance covers it, and then moves both and adds one record; otherwise nothing changes |
| BankOperations.LegIs | Java_Servlet_Banking_App/BankingAppSrc/src/classes/BankAccount.java:38-46 | the same for one leg of a transfer |
| BankOperations.WithdrawUndoesDeposit | Java_Servlet_Banking_App/BankingAppSrc/src/classes/BankAccount.java:48-60 | withdrawing what was deposited gives back all balances and the total, with two records |
| BankOperations.RemoveUndoesOpen | Java_Servlet_Banking_App/BankingAppSrc/src/classes/User.java:58-99 | removing the empty account just opened gives back everything but its number |
| BankProperties.Conservation | Java_Servlet_Banking_App/BankingAppSrc/src/classes/User.java:58-125 | over every run total balance, sum of live balances, signed sum of all transactions ever stored, and money in less money out are one number |
| BankProperties.LedgerReplay | Java_Servlet_Banking_App/BankingAppSrc/src/classes/BankAccount.java:19-84 | over every run the keys of each account, live or removed, are increasing and name exactly its transactions, whose running sum is each recorded balance; it ends at the balance, and for a removed account at 0 |
| BankProperties.IndexAgreement | Java_Servlet_Banking_App/BankingAppSrc/src/classes/User.java:58-99 | over every run the three lists have no duplicates and together name exactly the accounts, each by its type |
| BankProperties.TransferIsAtomic | Java_Servlet_Banking_App/BankingAppSrc/src/classes/User.java:101-111 | for an amount that is not negative a transfer moves exactly it and writes one record in each ledger, or changes nothing; when which |
| BankProperties.TransferConservesIff | Java_Servlet_Banking_App/BankingAppSrc/src/classes/User.java:101-111 | for any names and amount, exactly when a transfer leaves the total alone |
| BankProperties.NegativeTransferMakesMoney | Java_Servlet_Banking_App/BankingAppSrc/src/classes/User.java:106-108 | two empty accounts and the amount -100 |
| BankProperties.OpenKeepsOkIff | Java_Servlet_Banking_App/BankingAppSrc/src/classes/User.java:58-73 | an opening keeps the books right exactly for a new name and a balance that is not negative |
| BankProperties.TransactKeepsOkIff | Java_Servlet_Banking_App/BankingAppSrc/src/classes/BankAccount.java:29-46 | a transaction keeps them right exactly when it is refused or leaves a balance that is not negative |
| BankProperties.CloseKeepsOk | Java_Servlet_Banking_App/BankingAppSrc/src/classes/User.java:75-99 | a removal keeps them right and the total unchanged |
| PipeReader.ReadAll | Unix_Command_Line_Shell/cmd.c:88-111 | for every stream and whatever memory held before, the buffer holds what the blocks joined by strcat come to, and the count is the stream's length; all indexes in bounds, size at most four times the length, at most log2(L / 1024) + 2 rounds |
| PipeReader.HeldIsStreamIff | Unix_Command_Line_Shell/cmd.c:88-111 | the buffer holds the stream, whatever memory held before, exactly if the stream has at most 1024 bytes, or no NUL before its last byte, or a last NUL read alone with at most the byte before it to be lost |
| PipeReader.NulLosesOutput | Unix_Command_Line_Shell/cmd.c:103 | 1026 bytes that begin with a NUL are never held as they were written |
| PipeReader.HeldText | Unix_Command_Line_Shell/cmd.c:88-111 | the text of what is held is that of the blocks, whatever memory held before |
| PipeReader.ReadBlock | Unix_Command_Line_Shell/cmd.c:95-105 | one round of the loop joins exactly the next block to what is held, or finds nothing left |
| PipeReader.Strcat | Unix_Command_Line_Shell/cmd.c:103 | the text of the second buffer is put behind that of the first, in bounds |
| PipeReader.TextIsStream | Unix_Command_Line_Shell/cmd.c:88-111 | the text has the length of the stream exactly when the stream has no NUL, and then it is the stream |
| Tokenizer.WordsAreMaximalRuns | Unix_Command_Line_Shell/util.c:6-17 | the words of any line are exactly its maximal runs free of space and newline, in order |
| Tokenizer.TokensAreFirstRuns | Unix_Command_Line_Shell/util.c:6-17 | the tokens are the first maximal runs without space and newline, in order, all of them if they are fewer than 255 |
| TokenizerProgram.Strtok | Unix_Command_Line_Shell/util.c:8-12 | the next word, cut out of the buffer in place, and the rest of the line untouched |
| TokenizerProgram.ParseIntoTokens | Unix_Command_Line_Shell/util.c:6-17 | the pointers stand at the first 255 words, each a C string in the cut buffer, and end with NULL |
| Tokenizer.PrintThenParse | Unix_Command_Line_Shell/cmdctl.c:11-14 | tokenizing the printed command column gives back the arguments |
| Tokenizer.ColumnOfAppend | Unix_Command_Line_Shell/cmdctl.c:11-13 | each argument is printed as itself and one space |
| JobProperties.CommandColumnRoundTrip | Unix_Command_Line_Shell/cmdctl.c:11-14 | so it is for every job of every session, and typing the column starts the same command again |
| JobProgram.CopyArgv | Unix_Command_Line_Shell/cmd.c:5-12 | the strings copied from the pointers up to NULL are the words of the line |
| JobProgram.ParseLine | Unix_Command_Line_Shell/commando.c:16-25 | cutting the text of a line in place and copying the tokens out gives its words |
| JobProgram.Cmd.constructor | Unix_Command_Line_Shell/cmd.c:3-23 | a new job has all the arguments given, is not finished, has status INIT and no output |
| JobProgram.Cmd.Start | Unix_Command_Line_Shell/cmd.c:36-51 | the parent's side of a start |
| JobProgram.Cmd.FetchOutput | Unix_Command_Line_Shell/cmd.c:53-63 | the output kept is what the doubling buffer holds of the pipe, with its length, and the pipe is closed |
| JobProgram.Cmd.UpdateState | Unix_Command_Line_Shell/cmd.c:73-86 | only an exit changes a job that is not finished, and only then there is an alert |
| JobProgram.Cmdctl.Add | Unix_Command_Line_Shell/cmdctl.c:18-22 | a job goes to the end of the table, or is dropped if it is full |
| JobProgram.Cmdctl.UpdateState | Unix_Command_Line_Shell/cmdctl.c:24-30 | one pass updates each job once, in order |
| JobProgram.Cmdctl.StartCommand | Unix_Command_Line_Shell/commando.c:74-77 | the new job, or the last one of a full table, is started |
| JobProgram.Prompt | Unix_Command_Line_Shell/commando.c:14-81 | the command loop carries out a session of lines of text, each cut into tokens, and updates all jobs after each line but an exit |
| JobProgram.RunShell | Unix_Command_Line_Shell/commando.c:5-81 | the program over any lines of text ends with the table that their history tells |
| JobHistory.SessionIsHistory | Unix_Command_Line_Shell/commando.c:14-81 | after every session of at most 1024 starts the table is exactly the commands typed, in order, with arguments and pids, each running or with status, text and output of the first exit reported for it |
| JobHistory.StartIs | Unix_Command_Line_Shell/commando.c:74-77 | with room a start adds one job with these arguments and this pid in state RUN; without, only pid and state of the last job change |
| JobHistory.InterpretIs | Unix_Command_Line_Shell/commando.c:27-77 | which lines exit, which start a job, and which have which jobs looked at, by first token and number of tokens |
| JobHistory.WaitForLooksAt | Unix_Command_Line_Shell/commando.c:67-71 | `wait-for` with a printed job number looks at exactly that job |
| JobHistory.AtoiOfDecimal | Unix_Command_Line_Shell/commando.c:68 | reading a printed number gives it back, with any sign, whatever stands behind its digits |
| JobHistory.RoomyIff | Unix_Command_Line_Shell/cmdctl.c:18-19 | there is always room exactly in the sessions that start no more jobs than the table holds |
| JobProperties.JobLifecycle | Unix_Command_Line_Shell/commando.c:14-81 | over every session with room for its jobs the numbers are stable, finished jobs are frozen, and alerts are only added |
| JobProperties.FinishedIff | Unix_Command_Line_Shell/cmd.c:73-86 | finished, untruncated status EXIT(n), known output size and exactly one alert are the same; one close for each finished job |
| JobProperties.WaitAllFinishesAll | Unix_Command_Line_Shell/cmdctl.c:24-30 | if each unfinished child exits next, one pass finishes all jobs, with alerts in increasing order for exactly those not finished before |
| JobProperties.StartJobOkIff | Unix_Command_Line_Shell/commando.c:74-77 | a start keeps the table right exactly if there is room or the restarted last job had not finished |
| JobProperties.FullTableRestartsFinished | Unix_Command_Line_Shell/commando.c:74-77 | a session of 1025 commands after which the last job of the full table is finished and in state RUN |
| JobProperties.OutputIsRecalledIff | Unix_Command_Line_Shell/cmd.c:53-71 | what is printed of a job is what its child wrote, for exactly the outputs that the buffer holds whole |
| JobProperties.OutputIsLost | Unix_Command_Line_Shell/cmd.c:53-71 | a child whose output is not printed as it was written |
| Jobs.StatusFits | Unix_Command_Line_Shell/cmd.c:81 | no exit status is cut off by the length of the status field |

## Left out

- ServerProgram.ChatServer.CheckSources: does not model that `select` sleeps while there is nothing to read; a poll that finds nothing is allowed, which only adds runs.
- System calls that fail, FIFOs at end of file, full pipes, a write to a client whose process is already gone, terminal modes, signals in the middle of a handler, and the cancelling of a thread in the middle of a message.
- Lengths of names and paths and the truncation of names when they are copied; names are taken to be short enough.
- Process ids that are used again within a run.
- Layout of printed lines other than the command column and the client's four kinds of lines, prompts, echo of typed characters, and the truncation done by `iprintf`.
- The other commands of the shell that only print (help, list apart from its command column, and output-for and output-all apart from the bytes they print), and `fork`, `exec` and `dup2` on the child's side.
- `atoi` on numbers too large for an int, blanks in front of them, and job numbers out of range in `output-for`.
- Rounding of `float` balances, the log file of transactions, serialization of users, and all servlets and pages; of the pages only the guards they put on calls are used.
- The public setters of the bank's classes that no page calls, so the fields of a transaction and the name and type of an account are constants here.
- The output of a job is kept as a value in its record; the memory it was read into is not followed after that.
- The features of the chat that are only declared: ping, ticks, disconnecting, and the log of who is present.
- The web server in C_Server.
