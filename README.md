# A verified model of the Rubik's cube game core

This project models the core of a Rubik's cube game with a login screen:

- **The cube and its moves.** The cube is six 3 x 3 faces. `turn` moves one row or column a quarter turn, once or three times. `rotate` turns the whole view about x, y or z.
- **The move record.** Every move is recorded as a dictionary on a move stack. `scramble` makes 15 to 25 random turns.
- **The solver.** It undoes the last recorded move until the stack is empty or the cube is solved. `check_solved` compares every sticker with its face's centre.
- **The leaderboard.** It keeps the ten fastest solves, ordered by time.
- **The object file.** It keeps objects sorted by identifier and finds them by binary search.
- **Login.** It uses a shift-by-ten cipher over the printable range 32..127. Users are kept sorted by username and found by binary search.
- **Screen positions.** A validator accepts a position only inside both the window and a 4K screen.
- **Window messages.** The login window follows state changes and picks which complaint a sign-up or a new password draws first.

Each part follows the source's own form:

- **State changed in place becomes a class.** This covers the game's `used_cube`, `moves` and `scrambler_count`, the `MoveStack`, the leaderboard, the object file, the user list, the encryption `Stack`, the validator and the login window. Each method's `ensures` ties the new state to a pure function of the old state.
- **Loops become methods proved by loop invariants.** This covers the row and column passes, the `z` rotation, `check_solved`, `string`, and the corrected merge.
- **Pure logic becomes functions.** Lemmas state what the source promises about them:
  - undoing a move restores the cube;
  - four quarter turns are the identity;
  - decryption inverts encryption;
  - binary search finds exactly the stored keys;
  - the sorts give sorted permutations;
  - each window complaint appears exactly when its check fails.

Files:

| file | contents |
|---|---|
| `wrappers.dfy` | `Option` and `Result` |
| `text.dfy` | text as code points, and the lexicographic order Python uses for `str` |
| `values.dfy` | the Python values stored in records, and what `str()` makes of them |
| `cube_model.dfy` | colours, the cube, face spins, and the source map of each turn and rotation |
| `cube_laws.dfy` | the laws of turns and rotations, and the solved default cube |
| `moves.dfy` | move records and the `Move` datatype, applying and undoing moves |
| `move_stack.dfy` | `MoveStack` |
| `engine.dfy` | the game (`turn`, `rotate`, `scramble`) and the `Solver` |
| `sorting.dfy` | insertion sort, merge sort, and their correctness |
| `leaderboard.dfy` | the leaderboard |
| `tools_file.dfy` | `File` and its binary search |
| `encryption.dfy` | the cipher and the encryption `Stack` |
| `users.dfy` | `User` and `UserList` |
| `validation.dfy` | screen-position validation |
| `login_window.dfy` | the window states and the messages the sign-up and new-password screens show |

Points where the source is easy to misread, and what the model does:

- `features.scramble` resets the cube and sets the scrambler count, but does not clear the move stack; its caller does.
- In `cube.py` the move record is a plain list. In `features.py` it is a `MoveStack`. Both are modelled by one `MoveStack` field. `turn` and `rotate` only record valid dictionaries, so `push` never refuses them and `append` and `push` agree.
- The two "passwords do not match" messages are spelled differently. The model keeps the sign-up screen's "Paswords do not match." and the new-password screen's "Passwords do not match.".
- `Convert` is proved to stay within 0..0x10FFFF, so `chr` never fails: its result has the code-point type for every input, and printable input stays printable (`Encryption.ConvertWraps`).
- The snapshot `Commented/2/2.1/cube.py` has the same `turn`, `rotate`, `scramble` and `check_solved` as `cube.py`, so the same members model both. Its `Solver.solve` checks solved before the empty stack and inlines `pop_move`. It is modelled separately, as `Engine.Solver.SolveInline`.

## Model

| member | source | states |
|---|---|---|
| CubeModel.SpinsAreInverse | cube.py:615-618 | the clockwise and anticlockwise face spins (`numpy.rot90` with either axis order) undo each other |
| CubeModel.AxesDistinct | cube.py:659-665 | the three axis names `x`, `y`, `z` are different, so `rotate` picks exactly one branch |
| CubeLaws.TurnOnceAt | cube.py:596-631 | every sticker after one forward pass comes from the position the source map names |
| CubeLaws.RowTurnEffect | cube.py:608-618 | a row pass moves row n of front to right, right to back, back to left and left to front. Other rows of those faces are kept. Up spins anticlockwise when n = 0, down spins clockwise when n = 2, and neither changes otherwise |
| CubeLaws.ColumnTurnEffect | cube.py:619-631 | a column pass takes column n of down to front, front to up, up to back (row and column mirrored) and back to down (mirrored). Other columns are kept. Left spins when n = 0 and right when n = 2 |
| CubeLaws.RotateZEffect | cube.py:665-677 | a `z` rotation spins front clockwise and back anticlockwise, and moves down to left, left to up, up to right and right to down, each turned a quarter |
| CubeLaws.RotateOtherAxisIsIdentity | cube.py:634-677 | `rotate` with an axis other than x, y, z leaves the cube as it was |
| CubeLaws.TurnFourIsIdentity | cube.py:590-595 | four forward passes of the same slice give back the cube |
| CubeLaws.TurnMovesEachSticker | cube.py:596-631 | one pass moves every sticker to exactly one new position and keeps its colour, so no sticker is lost or duplicated |
| CubeLaws.TurnedAt | cube.py:590-631 | every sticker after a forward or backwards turn comes from one pass's source, or three passes' source |
| CubeLaws.TurnThenReverse | cube.py:590-595 | a turn followed by the same turn with `backwards` flipped gives back the cube, which is what `pop_move` relies on |
| CubeLaws.XSourceIsThreeRowTurns | cube.py:659-661 | the `x` rotation, turning rows 0, 1, 2 in turn, moves every sticker as one whole-cube rotation |
| CubeLaws.YSourceIsThreeColumnTurns | cube.py:662-664 | the `y` rotation, turning columns 0, 1, 2 in turn, moves every sticker as one whole-cube rotation |
| CubeLaws.RotatedAt | cube.py:634-677 | every sticker after `rotate(axis)` comes from the position the axis's source map names |
| CubeLaws.RotationMovesEachSticker | cube.py:634-677 | a rotation moves every sticker to exactly one new position and keeps its colour |
| CubeLaws.RotateFourIsIdentity | cube.py:634-677 | four rotations about the same axis give back the cube, so three rotations undo one |
| CubeLaws.DefaultCubeLayout | cube.py:23-66 | the default cube has orange left, green front, red right, blue back, white up and yellow down faces |
| CubeLaws.DefaultCubeIsSolved | cube.py:742-758 | the default cube is solved |
| CubeLaws.OneTurnUnsolvesDefault | cube.py:570-631 | a single turn of any slice of the default cube, forward or backwards, leaves it unsolved |
| CubeLaws.RotatePreservesSolved | cube.py:634-677 | rotating a solved cube leaves it solved: a rotation changes the view, not the layout |
| Moves.KeysDistinct | game_data.py:93-116 | the four record keys `direction`, `number`, `backwards`, `rotation` are different |
| Moves.Encode | cube.py:585-588 | the record of a turn has exactly the turn keys, and that of a rotation exactly the rotation keys, so `push` accepts every record `turn` and `rotate` make |
| Moves.Decode | cube.py:770-780 | a record read as a rotation has the `rotation` key, and one read as a turn does not, which is the test `pop_move` makes |
| Moves.DecodeEncode | cube.py:585-588 | reading back the record a move writes gives the move |
| Moves.EncodeDecode | cube.py:770-780 | a well-formed record is the record of the move it is read as |
| Moves.EncodeAllAt | cube.py:684-692 | the k-th record is the record of the k-th move: one record per move, in order |
| Moves.UndoApply | cube.py:770-780 | undoing a move after making it restores the cube |
| Moves.ApplyUndo | cube.py:770-780 | making a move after undoing it restores the cube |
| Moves.UndoAllReplay | cube.py:717-786 | undoing a sequence of moves, last first, after making them restores the cube |
| Moves.UndoLast | cube.py:760-786 | undoing the last move of a sequence gives the cube with only the earlier moves made |
| Moves.ApplyAt | cube.py:570-677 | every sticker after a recorded move comes from that move's source position |
| Moves.MoveSourceTarget | cube.py:570-677 | where a move takes stickers from and where it sends them are inverse to each other, so each move permutes the 54 positions |
| Moves.ReplayAt | cube.py:570-677 | every sticker after a sequence of moves comes from the composed source position |
| Moves.ReplaySourceTarget | cube.py:570-677 | the composed source and target positions of a move sequence are inverse to each other |
| Moves.ReplayMovesEachSticker | cube.py:570-677 | sticker conservation: after any moves, each sticker of the starting cube sits at exactly one position, with its colour, so every reachable cube rearranges the stickers it started with |
| MoveStacks.MoveStack.constructor | game_data.py:90-91 | the stack starts empty |
| MoveStacks.MoveStack.Push | game_data.py:93-116 | a record is pushed exactly when its keys are those of a turn or a rotation. A refused record (the `ValueError`) leaves the stack unchanged |
| MoveStacks.MoveStack.Pop | game_data.py:118-125 | the top record is returned and removed. An empty stack gives nothing and stays empty |
| MoveStacks.MoveStack.Clear | game_data.py:127-129 | the stack becomes empty |
| MoveStacks.MoveStack.Size | game_data.py:131-136 | the number of records, without changing them |
| MoveStacks.MoveStack.GetStack | game_data.py:138-143 | the records, oldest first |
| MoveStacks.MoveStack.SetStack | game_data.py:145-152 | the stack becomes the given records |
| MoveStacks.PushThenPop | game_data.py:93-125 | a valid record pushed and popped comes back, and the stack is as before (last in, first out) |
| Engine.ScrambleStep | cube.py:684-692 | one more draw makes one more turn on the cube and appends one more record, so the draws are made in order |
| Engine.Game.constructor | game_data.py:74-85 | the game starts with the default cube, an empty move stack and a zero scrambler count |
| Engine.Game.RowPass | cube.py:596-618 | one row pass changes the cube as the row-turn source map says, keeping the scrambler count |
| Engine.Game.ColumnPass | cube.py:619-631 | one column pass, written cell by cell in its loop, changes the cube as the column-turn source map says |
| Engine.Game.TurnPass | cube.py:596-631 | one pass of a row or a column |
| Engine.Game.Turn | cube.py:570-631 | the cube ends turned once, or three times when `backwards`. The record of the turn goes on the stack unless `ignore_moves` |
| Engine.Game.RotateAboutZ | cube.py:665-677 | the `z` loops, reading from the faces copied before them, rotate the cube about z |
| Engine.Game.Rotate | cube.py:634-677 | the cube ends rotated about the axis, and the record of the rotation goes on the stack unless `ignore_moves` |
| Engine.Game.ScrambleTurns | cube.py:680-692 | the cube ends with every drawn turn made in order, and every turn is recorded |
| Engine.Game.Scramble | features.py:27-44 | the cube restarts from the default and ends with the drawn turns made and recorded. The scrambler count is the number of turns |
| Engine.Game.UndoRecord | cube.py:770-780 | replaying a record in reverse undoes its move without recording anything |
| Engine.Solver.constructor | features.py:61-67 | a new solver is on its first step |
| Engine.Solver.CheckSolved | cube.py:742-758 | true exactly when every sticker of every face equals that face's centre |
| Engine.Solver.PopMove | cube.py:760-786 | an empty stack gives false and changes nothing. Otherwise the top record is removed and its move undone, and the result says whether records remain |
| Engine.Solver.Solve | features.py:69-92 | nothing happens, with result false, when the stack is empty or the cube solved. Otherwise the last move is undone and removed, and the first-step flag is cleared |
| Engine.Solver.SolveInline | Commented/2/2.1/cube.py:631-669 | the same outcomes as `Solve`, with the solved check made before the empty check |
| Engine.ScrambleThenSolve | features.py:27-140 | as a law on values: undoing every scrambler turn, last first, returns the cube to the default |
| Engine.UndoLastDraw | features.py:114-140 | after `k` scrambler turns the top record decodes, and undoing it gives the stack and cube of the first `k - 1` turns |
| Engine.SolveScrambleStep | features.py:69-92 | one solver step on an unsolved cube left by `k` scrambler turns leaves the stack and cube of the first `k - 1`, and says whether turns remain |
| Sorting.InsertionSort | features.py:408-410 | the result is a permutation of the input |
| Sorting.InsertionSortSorted | features.py:408-410 | the result is sorted by the key order |
| Sorting.Merge | Login/user_management.py:175-196 | the corrected merge holds exactly the elements of both halves |
| Sorting.MergeSort | Login/user_management.py:156-198 | the corrected merge sort's result is a permutation of the input |
| Sorting.MergeSorted | Login/user_management.py:175-196 | the corrected merge of two sorted lists gives a sorted list |
| Sorting.MergeSortSorted | Login/user_management.py:156-198 | the corrected merge sort's result is sorted |
| Text.LexLeTotal | Login/user_management.py:98-105 | any two usernames are comparable in Python's string order |
| Text.LexLeAntisymmetric | Login/user_management.py:98-105 | two names ordered both ways are equal |
| Text.LexLeTransitive | Login/user_management.py:98-105 | the string order is transitive |
| Text.LexTrichotomy | Login/user_management.py:98-105 | exactly one of less, equal, greater holds between two names |
| Values.NatTextRoundTrip | tools.py:64-80 | the decimal text `str()` gives a natural number reads back as that number |
| Values.NegativeSign | tools.py:64-80 | `str()` of an integer starts with a minus sign exactly when it is negative |
| Values.IntTextInjective | tools.py:64-80 | different integers give different `str()` identifiers |
| Leaderboards.ByTimeIsPreorder | features.py:408-410 | ordering entries by time is a total preorder |
| Leaderboards.SortByTime | features.py:408-410 | the entries come back sorted by time, as a permutation |
| Leaderboards.UpdatedIsBoard | features.py:383-406 | an update keeps the board sorted by time and at most ten entries long |
| Leaderboards.UpdatedWithRoom | features.py:392-395 | with fewer than ten entries, the new entry joins the others, numbered by the old length |
| Leaderboards.UpdatedTooSlow | features.py:396-397 | on a full board, a time no faster than the slowest leaves the board unchanged |
| Leaderboards.UpdatedDropsSlowest | features.py:399-402 | on a full board, a faster time replaces the slowest entry, keeping its id, and every entry is no slower than the one dropped |
| Leaderboards.NoSlowerThanLast | features.py:399-402 | after the slowest entry of a sorted board is replaced by a faster time, no entry is slower than the one dropped |
| Leaderboards.Leaderboard.constructor | features.py:368-381 | the stored entries start sorted by time |
| Leaderboards.Leaderboard.Sort | features.py:408-410 | the entries are sorted by time |
| Leaderboards.Leaderboard.UpdateList | features.py:383-406 | the entries become the updated board |
| Tools.ByIdIsPreorder | tools.py:103-109 | ordering objects by identifier is a total preorder |
| Tools.SortById | tools.py:103-109 | the objects come back sorted by identifier, as a permutation |
| Tools.BinarySearchSound | tools.py:121-144 | the search from any offset gives -1 or a position within the searched slice that holds the target identifier |
| Tools.BinarySearchFinds | tools.py:121-144 | on a sorted list, a stored identifier is always found, whichever offset the search starts from |
| Tools.SearchGoesLeft | tools.py:141-142 | a target before the middle is searched for in the left half only |
| Tools.SearchGoesRight | tools.py:143-144 | a target after the middle is searched for in the right half, with positions shifted past the middle |
| Tools.BinarySearchCorrect | tools.py:111-148 | on a sorted list the search gives -1 exactly when no object has the identifier, and otherwise a position that holds it |
| Tools.File.constructor | tools.py:41-63 | the file starts with its name and its stored objects |
| Tools.File.Sort | tools.py:103-109 | the objects are sorted by identifier |
| Tools.File.Search | tools.py:111-148 | the list is sorted first. The result is -1 exactly when no object has the identifier, and otherwise a position holding it |
| Tools.File.GetObject | tools.py:172-184 | the object at the position `search` returns, which has the identifier, or `ObjectNotFound` for the identifier and file exactly when there is none |
| Tools.File.AddObject | tools.py:186-195 | the object joins the list, which ends sorted and one longer |
| Tools.File.UpdateObject | tools.py:197-211 | the object at the position `search` returns on the sorted list is replaced, or `ObjectNotFound` leaves the sorted list alone |
| Tools.File.RemoveObject | tools.py:213-225 | the object at the position `search` returns on the sorted list is deleted and the others keep their order, or `ObjectNotFound` leaves the sorted list alone |
| Encryption.ConvertWraps | Login/encryption.py:12-32 | the result differs from the shifted code point by a multiple of 96, and the printable range is closed under the cipher |
| Encryption.DecryptEncrypt | Login/encryption.py:12-32 | decrypting an encrypted printable code point gives it back |
| Encryption.EncryptDecrypt | Login/encryption.py:12-32 | encrypting a decrypted printable code point gives it back |
| Encryption.ConvertTextAt | Login/encryption.py:64-81 | each code point of the converted string is the converted code point at the same place, so the length and order are kept |
| Encryption.ConvertTextPrintable | Login/encryption.py:64-81 | a printable string converts to a printable string |
| Encryption.StringConvert | Login/encryption.py:64-81 | the loop builds the character-by-character conversion of the whole string |
| Encryption.TextDecryptEncrypt | Login/encryption.py:64-81 | decrypting an encrypted printable string gives it back |
| Encryption.TextEncryptDecrypt | Login/encryption.py:64-81 | encrypting a decrypted printable string gives it back |
| Encryption.EncryptInjective | Login/encryption.py:64-81 | different printable strings encrypt differently, so comparing encrypted passwords compares the passwords |
| Encryption.Stack.constructor | Login/encryption.py:2-3 | the stack starts empty |
| Encryption.Stack.Push | Login/encryption.py:5-6 | the item goes on top |
| Encryption.Stack.Pop | Login/encryption.py:8-9 | the last item pushed is returned and removed. An empty stack gives nothing and is unchanged |
| Encryption.PushThenPop | Login/encryption.py:1-9 | a pushed item pops straight back, and the stack is as before |
| Users.UserOrder | Login/user_management.py:98-105 | any two users are equal, less or greater by username, and never both less and greater |
| Users.ByUsernameIsPreorder | Login/user_management.py:98-105 | ordering users by decrypted username is a total preorder |
| Users.UserString | Login/user_management.py:107-116 | the record line is the four fields and three separators long |
| Users.Find | Login/user_management.py:144-145 | a found position is where the separator occurs |
| Users.FindLeftmost | Login/user_management.py:144-145 | `split` cuts at the leftmost separator: none occurs before a found position, and none at all when nothing is found |
| Users.FindNone | Login/user_management.py:144-145 | a text without the separator's first code point holds no separator |
| Users.FindAfter | Login/user_management.py:144-145 | the first separator after a field without the separator's first code point is the one right after that field |
| Users.SplitPiece | Login/user_management.py:144-145 | splitting peels off such a field before the first separator, and the rest splits on its own |
| Users.SplitJoin | Login/user_management.py:144-145 | splitting fields joined by a separator gives back the fields when none holds the separator's first code point |
| Users.SplitRecord | Login/user_management.py:144-145 | splitting a user's four fields joined by any such separator gives back the four fields |
| Users.SplitUserString | Login/user_management.py:144-145 | `read` gets back the four fields of a record line written by `__str__` (lines 107-116) when none contains `/` |
| Users.EncryptedPercent | Login/encryption.py:12-32 | encryption turns "a%" into "k/": `%` (37) becomes `/` (47) |
| Users.ReadSplitsSlashPassword | Login/user_management.py:144-145 | as written: a user whose encrypted password is "k/" is read back with the password "k", so the saved user no longer matches |
| Users.EncryptedFree | Login/encryption.py:64-81 | encrypted printable text never holds the unit separator (31) |
| Users.SafeRecordRoundTrip | Login/user_management.py:144-145 | corrected: with the unit separator, every user made from printable fields reads back exactly |
| Users.AsWrittenSort | Login/user_management.py:156-198 | the as-written merge sort keeps the list's length |
| Users.AsWrittenSortFails | Login/user_management.py:175-198 | the as-written merge sort returns the keys 1, 3, 2 unchanged, and that list is not sorted |
| Users.NamedInOrder | Login/user_management.py:100-102 | users named "a", "b" and "c" compare in that order |
| Users.AsWrittenAddLosesUser | Login/user_management.py:283-309 | with the as-written sort, adding a name that lies between the two names of a sorted list leaves the list unsorted, and `search` then misses the user just added |
| Users.LtIsNotReverseLe | Login/user_management.py:101-102 | `left[i] < right[j]` holds exactly when the right user does not come first in the key order |
| Users.MergeUsers | Login/user_management.py:173-196 | the corrected merge loops build exactly the merge of the two sorted halves |
| Users.MergeWhileBoth | Login/user_management.py:174-188 | the first loop stops with one half used up and has built the merge of the parts it took |
| Users.AppendRest | Login/user_management.py:189-196 | a tail loop appends exactly the rest of its half |
| Users.MergeSortUsers | Login/user_management.py:156-198 | the corrected recursive sort computes merge sort by username |
| Users.SortUsersCorrect | Login/user_management.py:148-198 | the corrected sort gives a sorted permutation of the users |
| Users.BinaryUserSound | Login/user_management.py:208-229 | a position the search gives lies within the searched slice and holds a user with that decrypted username |
| Users.BinaryUserFinds | Login/user_management.py:208-229 | on a sorted list, a stored username is always found |
| Users.UserSearchGoesRight | Login/user_management.py:226-227 | a name after the middle is searched for from the middle on, with positions shifted by the middle |
| Users.BinaryUserCorrect | Login/user_management.py:200-231 | on a sorted list, `search` fails exactly when no user has the name, and otherwise gives a position holding it |
| Users.BinaryUserSeesOnlyNames | Login/user_management.py:208-229 | the search reads only usernames, so lists with the same names search alike |
| Users.NameKeptOnPasswordChange | Login/user_management.py:246-255 | changing a password keeps every username |
| Users.NewUserReadsBack | Login/user_management.py:283-309 | a new user's username and question read back decrypted. Password and answer checks succeed exactly for the original plaintext |
| Users.PasswordChangeKeepsOrder | Login/user_management.py:246-255 | changing a password keeps the list sorted |
| Users.UserList.constructor | Login/user_management.py:122-131 | with the corrected sort, the stored users start sorted by username |
| Users.UserList.Search | Login/user_management.py:200-231 | a found position holds the named user |
| Users.UserList.CheckPasswordOf | Login/user_management.py:233-244 | `None` exactly for an unknown user, otherwise whether the encrypted password matches |
| Users.UserList.CheckAnswerOf | Login/user_management.py:270-281 | `None` exactly for an unknown user, otherwise whether the encrypted answer matches |
| Users.UserList.GetQuestionOf | Login/user_management.py:257-268 | `None` (the source's `False`) exactly for an unknown user, otherwise the decrypted question |
| Users.UserList.ChangePassword | Login/user_management.py:246-255 | an unknown user changes nothing. Otherwise only the found user's password changes, to the encrypted new one. The user stays findable, the new password checks, and the list stays sorted |
| Users.UserList.AddUser | Login/user_management.py:283-309 | a user is added exactly when the name is not taken. With the corrected sort, on success the list ends sorted, one user more, and a printable name is then found |
| Validation.ValidateScreenPositions.constructor | validation.py:32-40 | the validator starts with the window size |
| Validation.ValidateScreenPositions.Run | validation.py:42-65 | the position comes back exactly when it lies inside both the window and the 4K screen, edges included; otherwise `InvalidScreenPosition` for it |
| Validation.ValidateScreenPositions.UpdateSize | validation.py:67-75 | later checks accept exactly the positions inside the new size |
| Validation.CornerIsValid | validation.py:42-65 | the bounds are inclusive: the origin and the window's far corner are valid |
| Validation.PastEdgeIsInvalid | validation.py:42-65 | a position one step past any edge is refused |
| LoginWindow.StatesDistinct | Login/login_window.py:55-67 | the four window states are different |
| LoginWindow.StateAfterIsState | Login/login_window.py:55-67 | `set_state` always lands on one of the four states, and keeps a state exactly when it is one |
| LoginWindow.SignUpMessagesDistinct | Login/login_window.py:234-245 | the six sign-up complaints are pairwise different |
| LoginWindow.SignUpChecksPass | Login/login_window.py:234-245 | the sign-up checks pass exactly when the username, password, question and answer are given and both repeats match |
| LoginWindow.SignUpMessageMeans | Login/login_window.py:234-245 | each complaint is shown exactly when every earlier check passed and its own failed |
| LoginWindow.PasswordMessageMeans | Login/login_window.py:461-464 | a new password is accepted exactly when it is given and repeated. An empty one is reported before a mismatch |
| LoginWindow.Window.constructor | Login/login_window.py:13-53 | the window starts on the login screen with no message |
| LoginWindow.Window.SetState | Login/login_window.py:55-67 | the window moves to the state asked for, or quits on any other, and clears the message |
| LoginWindow.Window.SignUp | Login/login_window.py:212-253 | a failed check shows its complaint and changes nothing else. A taken name shows "That username is taken." Otherwise the user is added (kept in order by the corrected sort), the game is loaded for them and the window quits |
| LoginWindow.Window.SetPassword | Login/login_window.py:447-471 | a complaint changes nothing else. Otherwise only the user's password changes, the message is cleared and the window returns to the login screen |

## Left out

- Rendering, pygame, tkinter widgets, fonts and the main loops are left out. They draw the state but do not change it.
- Timers (`sleep_time`, `time.time()` solve timing) are left out. They decide only how long the game waits between solver steps.
- File input and output is left out. This covers `File.read`, `save`, `replace_list` and `get_list`, `UserList.read` and `save`, `encryption.file`, and the `error.txt` logging. Only the record format is modelled: `Users.UserString` and `Users.Split` for user lines.
- `eval` of stored object text is left out. Objects are given as values.
- `UserList.remove` is left out. It is not part of this model.
- The window's `login`, `find_question` and `check_answer` closures are left out, along with `run` and `reset`. Only the `set_state`, `sign_up` and `set_password` chains are modelled. `load_game_function` is modelled by recording the user it is called for in `Window.loadedUser`, and `sys.exit` by the quit state.
- Randomness: `randint` becomes a sequence of draws supplied by the caller.
  - Engine.Game.Scramble and Engine.Game.ScrambleTurns require 15 to 25 draws, which is the range `randint(15, 25)` gives.
  - Each draw's slice number is an `Index` (0..2).
- Engine.Solver.PopMove, Engine.Solver.Solve and Engine.Solver.SolveInline require the top record to be a well-formed move. Every record `turn` and `rotate` push is one, by `Moves.DecodeEncode`. A malformed record, which the source would fail on with a `KeyError`, is not modelled.
- Engine.Solver.Solve leaves out `sleep_time`. Only the `first` flag is kept.
- Engine.Game: the module-level `used_cube`, `moves` and `scrambler_count` become the fields of one `Game` object.
- Engine.Game: the numpy array that `rot90` leaves in place of a nested list is modelled as the same nested sequence.
- Aliasing is left out. `get_stack` returns the stack's own list, and `User.set_password` mutates the user in place. Both are modelled on values: the user list replaces the user with a copy that has the new password.
- Users.SafeRecordRoundTrip: the correction picks the unit separator (31) because no printable code point encrypts to it. Any separator outside the printable range would do as well.
- Users.MergeSortUsers builds new sequences instead of writing into `self.list` in place. This is the corrected definition (see Findings).
- Users.UserList.constructor sorts with the corrected merge sort, where `__init__` calls the as-written `sort` (Login/user_management.py:131). So "the users start sorted" holds of the corrected program only.
- Users.UserList.AddUser sorts with the corrected merge sort, where `add_user` calls the as-written `sort` (Login/user_management.py:307). So "the list ends sorted" and "the new user is then found" hold of the corrected program only. In the source, a list holding "a" and "c" that gains "b" stays as "a", "c", "b", and `search("b")` then fails (Users.AsWrittenAddLosesUser).
- LoginWindow.Window.SignUp inherits this: its new user list is the corrected sort of the grown list, not what the as-written `sort` leaves.
- Sorting.Merge, Sorting.MergeSort, Sorting.MergeSorted and Sorting.MergeSortSorted state the corrected merge sort. The as-written one keeps only the length (Users.AsWrittenSort).
- Users.BinaryUser: the source's last `elif` chain can fall off its end and give `None`. That happens when neither comparison holds on unequal names, which cannot happen for strings. The model returns `None` there too. `Users.UserList.CheckPasswordOf` and `Users.UserList.CheckAnswerOf` return `None` for Python's implicit `None` on an unknown user.
- Negative screen sizes are accepted by `Validation.ValidateScreenPositions.UpdateSize` as in the source. They simply make every position invalid.
- Python's sort stability is not stated. Leaderboards.SortByTime is a stable insertion sort but promises only a sorted permutation, which is all `list.sort(key=...)` is relied on for.
- Leaderboards.Updated takes the player's name as a parameter. In the source it is the global `user_data.Manager.username`.
- Solve times are `real` in the model, so the floating-point rounding of `float` times is not modelled.

## Findings

| source | as written | input that shows it | evidently intended | confidence | as-written member | corrected member |
|---|---|---|---|---|---|---|
| Login/user_management.py:179, 194-196 | The first merge loop copies `lst[i]` instead of `left[i]`. The last cleanup loop counts the right-hand leftovers but never copies them. | Three users whose names compare in the order 1, 3, 2 (for example "a", "c", "b") come back in the same order, unsorted. | `sort` makes `self.list` a sorted permutation of the users. | not executed | Users.AsWrittenSortFails | Users.MergeSortUsers |
| Login/user_management.py:7, 107-116, 144-145 | Records join the encrypted fields with `///`, and `read` splits each line on `///`. Encryption maps `%` to `/`, so an encrypted field can end in `/`. The separator then matches one code point early. | The password "a%" is stored as "k/". The line "U///k////Q///A" reads back as "U", "k", "/Q", "A". | Every saved user reads back with the same four fields. | not executed | Users.ReadSplitsSlashPassword | Users.SafeRecordRoundTrip |
