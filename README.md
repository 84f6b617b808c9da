# Kawasaki AS-terminal protocol engine, in Dafny

This project models the engine that talks to a Kawasaki robot controller over its
AS-language Telnet terminal. There are three implementations of it:
- the session class `pykrcc` (`pykrcc/pykrcc.py`);
- its near-duplicate `Commu` (`pykrcc/Commu.py`);
- the older `Commu` of the `KRcc` package (`KRcc/Commu.py`).

The model has these parts:

- **Transport** (`transport.dfy`). The Telnet connection is a finite script of
  read results plus a record of every payload written. Past the end of the
  script a read yields the empty string, which is what telnetlib returns when its
  timeout expires with nothing buffered. The log file is a transcript that
  receives every write and read made while logging is on.
- **Inquiry resolvers** (`inquiry.dfy`). `default_cmd_inquiry` and
  `default_as_inquiry` are pure first-match tables from a response buffer to the
  reply to send, where `None` means "stop". Each is proved equal to a reference
  first-match table. The module also holds the terminator lists, including the
  nine-entry transfer list with its fused `Force loadPress ENTER.` pattern.
- **Command dialogue** (`dialogue.dfy`). It writes the command line, then reads
  and answers until the resolver says stop.
- **Block chunking** (`blocks.dfy`):
  - `__split_content_to_blocks` packs whole lines under the 492-character budget
    (a loop proved against the packing function);
  - the legacy engine slices the text into fixed 492-character pieces.
- **Load transfer** (`load_transfer.dfy`). The frame sequence of `load` is
  specified by pure functions of the read script: open frame, data frames with
  the resolver's replies, the trailer loop, then the closing frames. Both loops
  count empty reads without ever resetting the counter.
- **Save stream** (`save_stream.dfy`). `__get_savefile` alternates between two
  read modes until an empty boundary read or the end marker `E` ETB.
- **Save post-processing** (`clean.dfy`). `__process_data` strips the control
  pattern `\x17?\x05\x02[DE]?`, splits lines the way `bytes.splitlines` does,
  keeps the program text and logs the other lines.
- **Connection details** (`connection.dfy`). These are the Telnet option reply
  table of `__process_options` (ECHO, section 2 of RFC 857; TERMINAL-TYPE,
  section 2 of RFC 1091) and the `name()` text.
- **Session classes** (`pykrcc.dfy`, `commu.dfy`, `legacy.dfy`). Each holds the
  connection flags and settings. `command`, `load`, `save`, `connect`,
  `disconnect`, `startLog` and `stopLog` are methods that update them.

Where the docstrings and the code disagree, the model follows the code:
- `save` of the current engine has no `return` on success, so it returns `None`
  (`code: Option<int>`).
- `save` has no connection check: with no open socket its first write raises,
  which gives -4.
- `save` turns the busy marker -2 of `__get_savefile` into -4, because
  `__process_data` cannot handle an int.
- `load` returns -3, not the documented -2, when not connected.
- `load` writes the resolver's `break` reply back to the controller instead of
  aborting the transfer.
- In `load`, a non-empty read never resets the empty-read counter.
- `load` says logging is disabled while loading, but it turns logging back on
  before the transfer starts: only the file reading and block packing run with
  logging off, so a log that is on receives the whole transfer.
- `__process_options` declares the terminal type as "VT100" followed by a NUL.

## Model

| member | source | states |
|---|---|---|
| Transport.Link.Write | pykrcc/pykrcc.py:116-128 | a write appends the payload to the writes and, while logging is on, to the transcript; the read script is untouched |
| Transport.Link.Read | pykrcc/pykrcc.py:130-173 | a read takes the next scripted result ("" past the end), consumes it, and logs it while logging is on; nothing is written |
| Transport.Link.Note | pykrcc/pykrcc.py:77-93 | a log entry that is neither sent nor read goes to the transcript only while logging is on |
| Inquiry.DefaultCmdInquiry | pykrcc/pykrcc.py:446-458 | each of the four replies is given exactly when its cue is present and no earlier cue is: stop at the prompt, a space for paging, `1` for yes/no, the empty reply otherwise |
| Inquiry.CmdInquiryIsTable | pykrcc/pykrcc.py:446-458 | the command resolver equals the first-match table (prompt, paging, yes/no) with the empty reply as fallback |
| Inquiry.IndexedCmdInquiry | pykrcc/Commu.py:103-110 | the variant that tests the terminator list by index is the same resolver as the current one |
| Inquiry.DefaultAsInquiry | pykrcc/pykrcc.py:460-480 | an `errors` reply always gets `break`; the resolver stops exactly when there is no errors cue and no load-all menu, and either the end marker is present or none of the prompt cues are |
| Inquiry.AsInquiryIsTable | pykrcc/pykrcc.py:460-480 | the transfer resolver equals the seven-rule first-match table in source order, with stop as fallback |
| Inquiry.AsRepliesAreNotFrames | pykrcc/Commu.py:112-127 | every transfer reply is one of the six table texts and none starts with STX |
| Inquiry.FusedTerminator | pykrcc/pykrcc.py:50-60 | the transfer terminator list has nine entries; the last is `Force loadPress ENTER.` and neither half appears alone |
| Dialogue.CommandExchange | pykrcc/pykrcc.py:423-437 | the exchange writes the command line and then one reply per response before the last; it reads the next results of the script in order; every response but the last got a reply, and the last made the resolver stop (or the fuel ran out); with logging on the log gains the command line, then each response followed by its reply, then the last response |
| Dialogue.TurnsHoldsTraffic | pykrcc/pykrcc.py:423-437 | the logged turns of an exchange hold exactly its responses and the replies to them |
| Dialogue.AnsweredMeans | pykrcc/pykrcc.py:428-433 | "answered" means the resolver gave a reply for every response in the list |
| Dialogue.SilentPeerNeverFinishes | pykrcc/pykrcc.py:428-436 | against a silent controller every read is empty and gets the empty reply, never stop, so the command loop does not end by itself |
| Dialogue.Answer | pykrcc/pykrcc.py:562-566 | one transfer round reads the next result and writes the resolver's reply, if any; with logging on the log gains the read and then the reply |
| Blocks.SplitContentToBlocks | pykrcc/pykrcc.py:256-278 | the loop's block list is the packing of the lines; joined, the blocks give the joined lines; the last block is never empty |
| Blocks.PackConcat | pykrcc/pykrcc.py:266-278 | joining the blocks gives back the joined input lines |
| Blocks.PackGroups | pykrcc/pykrcc.py:266-278 | every line lies wholly inside one block, in input order (only trailing empty lines may be in no block); each block is a single line or shorter than 490 characters |
| Blocks.PackLastNotEmpty | pykrcc/pykrcc.py:276-277 | no final empty block is emitted |
| Blocks.PackLeadingEmptyBlock | pykrcc/pykrcc.py:272-274 | a first line that alone reaches the budget flushes an empty first block and becomes the second block |
| Blocks.PackSingle | pykrcc/pykrcc.py:272-277 | non-empty text whose length plus 2 is under 492 becomes exactly one block |
| Blocks.Slices | KRcc/Commu.py:172-175 | the slices join back into the content; all but the last are 492 characters long and the last has 1 to 492; empty content gives no slice |
| Clean.ControlMatch | pykrcc/pykrcc.py:245 | the pattern matches at the start exactly when the text starts with ENQ STX or ETB ENQ STX; the match is one of the six texts of the pattern, takes the leading ETB when there is one, and takes a following `D` or `E` |
| Clean.StripControlLetter | pykrcc/pykrcc.py:245 | a control sequence followed by `D` or `E`, with or without its leading ETB, is removed together with the letter |
| Clean.StripControl | pykrcc/pykrcc.py:245 | stripping never lengthens the data |
| Clean.StripControlIdentity | pykrcc/pykrcc.py:245 | data without ENQ is left unchanged by the strip |
| Clean.SplitLinesNoBreaks | pykrcc/pykrcc.py:247 | no split line contains a line break |
| Clean.SplitJoinLines | pykrcc/pykrcc.py:623 | lines without breaks, written each with `\n`, split back into the same lines |
| Clean.SavedFileReadsBack | pykrcc/pykrcc.py:622-623 | the file that `save` writes splits back into exactly the kept lines |
| Clean.KeptFromLines | pykrcc/pykrcc.py:247-249 | every kept line is one of the split lines and passes the keep test |
| Clean.EraseEtb | pykrcc/pykrcc.py:253 | the logged copy of a dropped line has no ETB and is shorter than the line by exactly its number of ETBs; it uses only the line's characters, and a line without ETB is copied unchanged |
| Clean.EraseEtbAppend | pykrcc/pykrcc.py:253 | erasing works piecewise, so the characters other than ETB stay in their order |
| Clean.EveryLineAccounted | pykrcc/pykrcc.py:247-253 | kept lines and log notes never outnumber the split lines; with no `Bfile.as` header they account for every line |
| Clean.KeptIsFilter | pykrcc/pykrcc.py:246-249 | the kept lines are, in input order and at increasing indices, exactly the lines that are non-empty and start with none of ETB, `Bfile.as`, `=` (a line is among them if and only if it passes) |
| Clean.KeepLines | pykrcc/pykrcc.py:246-253 | the loop returns the kept lines and, while logging is on, logs every dropped line except the `Bfile.as` header, without ETB and ended by `\n`, in order |
| Clean.ProcessData | pykrcc/pykrcc.py:235-254 | the result is the kept lines of the stripped, split data, and the log gains the notes for the dropped ones |
| Connection.OptionReply | pykrcc/pykrcc.py:95-114 | WILL ECHO is answered with IAC DO ECHO, DO TERMINAL-TYPE with IAC WILL TERMINAL-TYPE; SE and every other request get nothing; every reply starts with IAC |
| Connection.SubnegotiationReply | KRcc/Commu.py:36-46 | the sub-negotiation reply is a well-framed TERMINAL-TYPE IS message declaring "VT100" followed by NUL, with no IAC inside |
| Connection.RepliesAnswerOnlyAgreedOptions | pykrcc/Commu.py:79-89 | only WILL ECHO, DO TERMINAL-TYPE and SB get an answer, and only the first two get a three-byte command |
| Connection.Digits | pykrcc/pykrcc.py:370 | a number prints as a non-empty string of decimal digits |
| Connection.DigitsRoundTrip | pykrcc/pykrcc.py:370 | reading the printed digits back gives the number |
| Connection.IntText | pykrcc/pykrcc.py:370 | a printed int starts with `-` exactly when it is negative |
| Connection.Name | KRcc/Commu.py:125-126 | the name is `TCP <login>@<ip>, `, the port, `, `, the timeout, then `,` without TCP_NODELAY or `TCP_NODELAY` with it; it ends in `,` exactly without TCP_NODELAY |
| Connection.NameReadsBack | pykrcc/pykrcc.py:363-370 | after the `TCP <login>@<ip>, ` head, the first run of digits reads back as the port and the run after the next `, ` as the timeout |
| LoadTransfer.DataFrame | pykrcc/pykrcc.py:561 | a data frame is the header `STX C    0`, the block, then CR LF ETB, and the block can be read back from between them |
| LoadTransfer.SendBlock | pykrcc/pykrcc.py:561-566 | one block round writes the data frame, reads once, and writes the resolver's reply if any; with logging on the log gains the frame, the read and the reply in that order |
| LoadTransfer.SendBlocks | pykrcc/pykrcc.py:556-570 | the block loop makes the writes, leaves the script and, with logging on, logs the traffic that the block-phase function gives for the script on entry |
| LoadTransfer.ReadTrailer | pykrcc/pykrcc.py:571-582 | the trailer loop, restarted from a zero counter, makes the writes, leaves the script and logs the traffic that the trailer-phase function gives |
| LoadTransfer.CloseTransfer | pykrcc/pykrcc.py:583-587 | the transfer closes with the EOF frame, a line end and the acknowledgment frame, with one read after the line end and one after the acknowledgment; with logging on all five reach the log in that order |
| LoadTransfer.Transfer | pykrcc/pykrcc.py:540-588 | the transfer returns the code, makes the writes, leaves the script and, with logging on, logs the traffic that the load-dialogue function gives |
| LoadTransfer.BlockPhaseLog | pykrcc/pykrcc.py:558-570 | the block loop's traffic is exactly its writes and its reads |
| LoadTransfer.TrailerPhaseLog | pykrcc/pykrcc.py:571-582 | the trailer loop's traffic is exactly its writes and its reads |
| LoadTransfer.LoadLogOpens | pykrcc/pykrcc.py:540-545 | the load's traffic opens with the load command and then the first reply |
| LoadTransfer.LoadLog | pykrcc/pykrcc.py:540-588 | the load's traffic holds every write of the dialogue and every read (the two opening replies, the replies of both loops, the two closing replies) and nothing else |
| LoadTransfer.BlockPhaseReads | pykrcc/pykrcc.py:558-562 | the block loop reads once per block sent (at least once when there is a block), taking the next results of the script in order |
| LoadTransfer.BlockPhaseCounter | pykrcc/pykrcc.py:567-570 | the counter equals the empty reads made so far, including ones separated by non-empty reads, and never passes 3 |
| LoadTransfer.BlockPhaseStops | pykrcc/pykrcc.py:567-570 | the loop stops before the last block only when the counter reaches 3, and then the last read was empty |
| LoadTransfer.BlockPhaseWrites | pykrcc/pykrcc.py:558-566 | the loop sends a prefix of the blocks in order, each data frame followed by the answer to the read made right after it |
| LoadTransfer.TrailerPhaseReads | pykrcc/pykrcc.py:573-574 | the trailer loop reads the next results of the script, in order, at least once |
| LoadTransfer.TrailerPhaseCounter | pykrcc/pykrcc.py:571-582 | the trailer loop ends on its third empty read since the reset, and only then |
| LoadTransfer.TrailerPhaseWrites | pykrcc/pykrcc.py:576-578 | the trailer loop answers every response it reads, in order |
| LoadTransfer.ErrorsAnsweredWithBreak | pykrcc/pykrcc.py:564-566 | a reply reporting errors is answered with `break` right after its block, and the next block is still sent |
| LoadTransfer.DefaultAsNeverFrames | pykrcc/pykrcc.py:460-480 | the default transfer resolver never answers with something that starts like a frame |
| LoadTransfer.LoadFrames | pykrcc/Commu.py:418-460 | the load dialogue returns -2 after only the load command exactly when the first reply is busy; otherwise it returns 0, the load command comes first, and the frames written are, in order, the open frame, the data frames of a prefix of the blocks, the EOF frame and the acknowledgment frame |
| SaveStream.ReadStream | pykrcc/pykrcc.py:206-227 | the alternating read loop returns the data, and leaves the script, that the stream-loop function gives; it writes nothing |
| SaveStream.GetSavefile | pykrcc/pykrcc.py:175-233 | the save dialogue returns the data, makes the writes and leaves the script that the save-dialogue function gives, with or without the busy check |
| SaveStream.CloseSave | pykrcc/pykrcc.py:228-231 | the save closes with the acknowledgment frame, a line end and the acknowledgment frame again, then one read |
| SaveStream.SaveLoopReads | pykrcc/pykrcc.py:209-227 | the data is the concatenation, in order, of every read the loop made (at least one), and the loop leaves the script after its last read |
| SaveStream.SaveLoopStops | pykrcc/pykrcc.py:209-227 | the loop ends at the first read that ends it, and there only: an empty boundary read, an empty or end-marked eager read, or an end-marked read between boundaries |
| SaveStream.EmptyChunkContinues | pykrcc/pykrcc.py:221-225 | an empty read between block boundaries does not stop the loop |
| SaveStream.EmptyBoundaryStops | pykrcc/pykrcc.py:211-213 | an empty read at a boundary stops the loop at once, with no data |
| SaveStream.BusySaveSendsNoRequest | pykrcc/pykrcc.py:196-205 | a busy controller gets only the save command and nothing is returned; without the busy check the same reply starts the transfer |
| SaveStream.BusyCheckOnlyOnBanner | pykrcc/Commu.py:149-177 | without the busy banner both variants behave the same: save command, request frame, then the three closing writes |
| SaveStream.SaveCommandNamesProgram | pykrcc/pykrcc.py:186-195 | the save command is `save<qual> file.as`, then `=<prog>` when a program is named, then CR LF |
| Pykrcc.Pykrcc.constructor | pykrcc/pykrcc.py:23-67 | the constructor stores the settings, installs the default resolvers, starts with logging off, and connects |
| Pykrcc.Pykrcc.Open | pykrcc/pykrcc.py:280-315 | an unreachable controller gives -1 and leaves `IsConnected` unchanged; otherwise the login is sent between two reads and the session is connected |
| Pykrcc.Pykrcc.Connect | pykrcc/pykrcc.py:317-342 | `connect` replaces the settings, then connects as above |
| Pykrcc.Pykrcc.Disconnect | pykrcc/pykrcc.py:344-361 | when already disconnected it returns true and changes nothing; a failed close returns false and stays connected; a successful close clears `IsConnected` |
| Pykrcc.Pykrcc.Name | pykrcc/pykrcc.py:363-370 | the name of the current settings: `TCP <login>@<ip>, `, the port, `, `, the timeout, then `,` without TCP_NODELAY or `TCP_NODELAY` with it |
| Pykrcc.Pykrcc.StartLog | pykrcc/pykrcc.py:372-388 | logging is on after a successful open of the log file; nothing changes on failure |
| Pykrcc.Pykrcc.StopLog | pykrcc/pykrcc.py:390-404 | with a log file open it closes it and turns logging off; with none the call fails and changes nothing |
| Pykrcc.Pykrcc.Command | pykrcc/pykrcc.py:406-444 | not connected: `(-2, "Not connected")` with no I/O. Otherwise 0 and every response read, concatenated in order, with the writes and reads of the command exchange; with logging on the log gains the command line and the exchange's traffic in order |
| Pykrcc.Pykrcc.Load | pykrcc/pykrcc.py:495-596 | -3 with no I/O when not connected or without a file; otherwise the line blocks are transferred as the load-dialogue function says. Logging is the same on exit as on entry; with logging on the log receives the transfer's whole traffic, otherwise nothing |
| Pykrcc.Pykrcc.Save | pykrcc/pykrcc.py:598-632 | busy or no socket: -4 and an empty file. Otherwise no code (`None`), and the file is the kept lines, each ended by `\n`. Logging is the same on exit; only the cleaning step's notes reach the log |
| Commu.Commu.constructor | pykrcc/Commu.py:17-60 | the constructor stores the settings, installs the default resolvers, starts with logging off, and connects |
| Commu.Commu.Open | pykrcc/Commu.py:193-219 | an unreachable controller gives -1; otherwise the login is sent between two reads and the session is connected |
| Commu.Commu.Connect | pykrcc/Commu.py:221-231 | `connect` replaces the settings, then connects |
| Commu.Commu.Disconnect | pykrcc/Commu.py:233-242 | idempotent; `IsConnected` is cleared only after a successful close |
| Commu.Commu.Name | pykrcc/Commu.py:244-245 | the name of the current settings: `TCP <login>@<ip>, `, the port, `, `, the timeout, then `,` without TCP_NODELAY or `TCP_NODELAY` with it |
| Commu.Commu.StartLog | pykrcc/Commu.py:247-254 | logging is on after a successful open of the log file |
| Commu.Commu.StopLog | pykrcc/Commu.py:256-264 | closing with no log file open fails and changes nothing |
| Commu.Commu.Command | pykrcc/Commu.py:266-285 | not connected: `(-2, "Not connected")` with no I/O. Otherwise 0 and only the last response read, with the same exchange, and the same log, as the current engine |
| Commu.Commu.Load | pykrcc/Commu.py:388-473 | -3 with no I/O when not connected or without a file; otherwise the line blocks are transferred as the load-dialogue function says. Logging is restored on every path; with logging on the log receives the transfer's whole traffic, otherwise nothing |
| Commu.Commu.Save | pykrcc/Commu.py:475-496 | with no busy check, a busy reply is taken for the start of the data, so the dialogue always yields data: no code, and the file of kept lines. No socket gives -4 |
| Legacy.PieceFrame | KRcc/Commu.py:181 | a legacy data frame is eight bytes longer than its slice and carries it between the header and ETB |
| Legacy.SentFrames | KRcc/Commu.py:180-182 | one data frame is sent per slice |
| Legacy.PayloadsOfSentFrames | KRcc/Commu.py:180-182 | the payloads of the frames sent are the slices themselves |
| Legacy.LoadFramesCarryContent | KRcc/Commu.py:173-182 | joining the payloads of the legacy data frames gives back the file's text |
| Legacy.LoadReads | KRcc/Commu.py:176-188 | two reads, one per slice, then two more: the legacy load makes slice count + 4 reads |
| Legacy.PrepareContent | KRcc/Commu.py:161-166 | the qualifier is not implemented: the content comes back unchanged |
| Legacy.Commu.constructor | KRcc/Commu.py:16-33 | the constructor stores the settings and connects |
| Legacy.Commu.Send | KRcc/Commu.py:48-53 | every payload, control frames included, is sent with CR LF appended, and logged while a log file is open |
| Legacy.Commu.Open | KRcc/Commu.py:71-97 | an unreachable controller gives -1; otherwise the login line is sent between two reads and the session is connected |
| Legacy.Commu.Connect | KRcc/Commu.py:102-112 | `connect` replaces the settings, then connects |
| Legacy.Commu.Disconnect | KRcc/Commu.py:114-123 | idempotent; `IsConnected` is cleared only after a successful close |
| Legacy.Commu.Name | KRcc/Commu.py:125-126 | the name of the current settings: `TCP <login>@<ip>, `, the port, `, `, the timeout, then `,` without TCP_NODELAY or `TCP_NODELAY` with it |
| Legacy.Commu.StartLog | KRcc/Commu.py:128-135 | the log file is open after a successful open |
| Legacy.Commu.StopLog | KRcc/Commu.py:137-145 | closing with no log file open fails and changes nothing |
| Legacy.Commu.Command | KRcc/Commu.py:147-159 | not connected: `(-2, "Not connected")` with no I/O; otherwise one command line and one read, returned as is; with logging on the log gains the command line and then the response |
| Legacy.Commu.OpenLoad | KRcc/Commu.py:176-179 | the legacy load opens with the load command and the open frame, each followed by a read; a log that is on gains the four in that order |
| Legacy.Commu.SendPieces | KRcc/Commu.py:180-182 | each slice's data frame is sent, followed by one read; a log that is on gains each frame followed by its read |
| Legacy.PiecesTrafficHoldsWrites | KRcc/Commu.py:180-182 | the logged traffic of the slices holds exactly their data frames and the reads after them |
| Legacy.Commu.CloseLoad | KRcc/Commu.py:183-188 | the EOF frame, a bare line end and the acknowledgment frame are sent; a read follows every write except the EOF frame; a log that is on gains the five in that order |
| Legacy.Commu.Load | KRcc/Commu.py:168-198 | -3 with no I/O when not connected or without a file; otherwise the exact write list of the legacy load and slice count + 4 reads; a log that is on gains the whole interleaved traffic of the load |

## Left out

- Network I/O: the socket setup, `setsockopt` TCP_NODELAY, `time.sleep` and `sendall` are not modelled. Whether the controller accepts the connection, and whether a close or a log-file open succeeds, are parameters (`reachable`, `closeOk`, `created`).
- Login failures: a timeout (-2) or another error (-3, or -1 in `Commu`) while logging in is not modelled. A reachable controller always accepts the login.
- Telnet option replies are a pure table. The `sendall` of the reply is not modelled.
- telnetlib's pattern matching in `expect`/`read_until`, and its timeouts, are not modelled: each read takes the next scripted result, whatever pattern it waits for. The terminator lists are kept as constants only.
- Timeout return codes (-1): the scripted transport never raises a timeout.
- Exceptions are modelled only where they decide a return code: a write on a socket that is not open gives -4 in `load` and `save`, and `(-2, "Unexpected error")` in `command`. Decoding errors are not modelled.
- File I/O: the file contents are a parameter (`None` when the file does not exist), and the saved file is a returned string. `FileExistsError` (-3) and `os.path.getsize` are not modelled.
- Log text: the log filter `re.sub` and the CR LF to LF rewrite of `__log` are not modelled. The transcript records the unfiltered payloads.
- Direct writes to the log file are not modelled: the `save`/`load` banners and the busy message that `__get_savefile` and `load` write even with logging off.
- The `progress` callback and `loaded_size` are not modelled; they only log.
- The `logger` debug output is not modelled.
- The `__del__` destructors are not modelled; they only call `disconnect` and `stopLog`.
- str/bytes encoding is not modelled: text is ASCII, one `char` per byte.
- Pykrcc.Pykrcc.Command: the source loop has no bound; `fuel` bounds the rounds after the first read, and the contract also admits a stop when the fuel runs out.
- Commu.Commu.Command: same fuel bound as above.
- A missing command (`cmd=None`, the default) is not modelled: `command` takes a string. In the source it makes the encoding (or, in `KRcc`, the string concatenation) raise, which gives `(-2, "Unexpected error")`.
- The commented-out code of `pykrcc/Commu.py` and the `__main__` demo of `KRcc/Commu.py` are not modelled, nor are `test.py` and `setup.py`.
