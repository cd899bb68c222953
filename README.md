# SET card game: a verified model

This project models the logic of a single-player SET card game written as a
Streamlit app. It covers three parts.

- **The card predicate and decoding.** A card is an image file name made of four
  ternary digits followed by `.png`. `is_set` accepts a triple when, at each of
  the four digit positions, the three values are all equal or all different.
  `decode` turns the digits into the Korean attribute labels for shading, shape,
  colour and number.
- **The game session.** The game deals 12 distinct cards. Clicking a card
  toggles it in a selection of at most three positions, and a full selection is
  judged at once. A SET is logged as a success: its three cards are deleted from
  the board, and up to three never-used cards are drawn and appended. A wrong
  triple is logged as a failure and the board stays as it is. Either way the
  selection is cleared. The game ends when the board is empty.
- **The tutorial.** It has three practice triples, each with a per-attribute
  answer key and a SET/not-SET verdict, and an answer check for the practice
  section. It also has four showcase triples, each varying a single attribute.

Modules:

- `Wrappers`: Option and Result.
- `Collections`: lists without repetition, and `random.sample` outcomes.
- `Cards`: the deck of 81 card names.
- `SetRule`: `is_set` and its properties.
- `Utils`: `utils.py`.
- `Game`: `pages/2_Game.py`, with the class `Game.Session` for `st.session_state`.
- `Tutorial`: `pages/1_Tutorial.py`.

How the model treats what the source does not compute itself:

- `random.sample` becomes a caller-supplied outcome `draw`. Its precondition `IsSample` says the draw is distinct, comes from the pool and has the right length.
- Elapsed time becomes a `nat` number of seconds.
- `ALL_CARDS`, which is built from a directory listing, becomes the `deck` given to the `Session` constructor. `Cards.AllCardSet` is the 81-card deck the card directory holds, and `FullDeckDeal` and `BoardHoldsCardNames` connect it to the session. The constructor requires a deck whose size is a multiple of 3, because the board invariant keeps the undealt cards in threes; the 81-card deck meets this, by `FullDeckDeal`.

Python errors are modelled explicitly:

- `decode` raises `IndexError` on a name shorter than four characters and `KeyError` on a character that is not `0`, `1` or `2`. The model raises the error for the first such position, which is the order the dictionary display evaluates its entries.
- `check_answer` raises `IndexError` when a list is shorter than four and agrees with the other up to its end. It stops at the first mismatch otherwise.

The model follows the code where it departs from the usual SET rules:

- After a SET, the code deletes the three cards and appends the refill at the end of the board. It does not put new cards into the vacated slots.
- There is no top-up to 15 cards, no hint, no check for a board without a SET, and no score or session summary.

## Model

| member | source | states |
|---|---|---|
| Cards.AllCards | pages/2_Game.py:9 | ALL_CARDS has 81 entries, the i-th being i written as four base-3 digits plus ".png" |
| Cards.IndexOfCardName | generate_set_cards.py:9-13 | every enumerated name is a card name and sits at the index its digits spell in base 3 |
| Cards.CardNameOfIndex | generate_set_cards.py:9-13 | every card name is the enumerated name at its own index, so the enumeration covers all names |
| Cards.AllCardsDistinct | generate_set_cards.py:9-13 | the 81 enumerated names are pairwise distinct |
| Cards.InDeck | pages/2_Game.py:9 | a string is in the deck exactly when it is four ternary digits followed by ".png" |
| Cards.DeckSize | pages/2_Game.py:9 | the deck has 81 distinct cards |
| SetRule.IsSet | pages/2_Game.py:37-39 | `is_set`: every zipped column of the `card[:4]` slices has 1 or 3 distinct values; its meaning is stated by `IsSetOfThree`, `IsSetPermutation`, `IsSetIgnoresSuffix` and `ThirdCard` |
| SetRule.Width | pages/2_Game.py:38 | zip produces at most four columns, as many as the shortest `card[:4]`, and none for no cards |
| SetRule.ThreeValues | pages/2_Game.py:39 | for three values, a set of size 1 or 3 means all equal or all distinct |
| SetRule.IsSetOfThree | pages/2_Game.py:37-39 | `is_set([a, b, c])` holds exactly when each shared leading position up to 4 is all-same or all-different |
| SetRule.IsSetOfCodes | pages/2_Game.py:37-39 | for card codes, `is_set` checks exactly the four digit positions |
| SetRule.WidthBySet | pages/2_Game.py:38 | the number of zipped columns depends only on which cards are present |
| SetRule.IsSetPermutation | pages/2_Game.py:37-39 | `is_set` gives the same answer for every reordering of its cards |
| SetRule.WidthByLength | pages/2_Game.py:38 | the number of zipped columns depends only on the lengths of the `card[:4]` slices |
| SetRule.Lead | pages/2_Game.py:38 | `card[:4]`, the slice `is_set` reads; `IsSetIgnoresSuffix` states that only it matters |
| SetRule.IsSetIgnoresSuffix | pages/2_Game.py:38 | cards that agree on `card[:4]` get the same verdict; the ".png" suffix is ignored |
| SetRule.SumRule | pages/2_Game.py:39 | for ternary digits, all-same-or-all-different means the digit values sum to a multiple of 3 |
| SetRule.ThirdDigitUnique | pages/2_Game.py:39 | two digits are completed to a valid column by exactly one digit |
| SetRule.ThirdCard | pages/2_Game.py:37-39 | three codes form a SET exactly when the third one's digits are the unique completion of the first two |
| SetRule.UniqueCompletionOfNames | pages/2_Game.py:37-39 | two distinct card names have exactly one card name completing them to a SET, and it differs from both |
| SetRule.UniqueCompletion | pages/2_Game.py:37-39 | in the deck, two distinct cards have exactly one third card forming a SET with them, and it is in the deck and differs from both |
| Utils.Decode | utils.py:17-23 | succeeds exactly on names whose first four characters are ternary digits, with the four keys of `columns`; otherwise it raises the IndexError or KeyError of the first unreadable position |
| Utils.Lookup | utils.py:19-22 | one subscript `m[name[pos]]` of `decode`, raising IndexError or KeyError; `Decode` and `DecodeAttribute` state what the four lookups give |
| Utils.MapsInjective | utils.py:9-12 | each attribute map is defined on the three digits and is injective on them |
| Utils.DecodeAttribute | utils.py:19-22 | shading is read from character 0, shape from 1, colour from 2 and number from 3, each through its own map |
| Utils.DecodeCompares | utils.py:17-23 | two cards have the same decoded attribute exactly when they have the same digit for it |
| Utils.EncodeDecode | utils.py:17-23 | the decoded attributes give back the four digits of the name |
| Utils.DecodeInjective | utils.py:17-23 | two codes decode alike exactly when their first four characters are equal |
| Utils.AllMatchFrom | utils.py:45 | the `all(...)` over positions k..3 is true exactly when both lists agree there; it raises IndexError at the shorter list's end exactly when they agree up to that end |
| Utils.CheckAnswer | utils.py:44-47 | praises with the example number and verdict exactly when the answers equal the key at positions 0 to 3, and otherwise says nothing or raises IndexError as the code does |
| Game.AppendRecord | pages/2_Game.py:55 | appending keeps the log numbered 1, 2, 3, ... and records the elapsed time |
| Game.RemoveFirst | pages/2_Game.py:44 | `list.remove(x)`; `RemoveFirstAt` and `RemoveFirstDistinct` state its meaning |
| Game.RemoveFirstAt | pages/2_Game.py:44 | `remove` deletes the first occurrence of the index and keeps the rest in order |
| Game.RemoveFirstDistinct | pages/2_Game.py:44 | removing a selected index from a duplicate-free selection drops exactly that index |
| Game.Toggled | pages/2_Game.py:42-46 | the selection after `toggle_card(idx)`; `ToggledSelection` and `ToggleTwice` state its meaning |
| Game.ToggledSelection | pages/2_Game.py:42-46 | a toggle removes a selected index, appends an unselected one only while fewer than 3 are selected, and otherwise changes nothing; the selection stays duplicate-free with at most 3 entries |
| Game.ToggleTwice | pages/2_Game.py:42-46 | a toggle that was not ignored, done twice, restores the selected indices |
| Game.Without | pages/2_Game.py:58-59 | the board with the selected positions deleted and the rest in order, defined independently of the loop; `WithoutFromMembers`, `WithoutFromLength` and `KeptCards` state its meaning, and `DeleteSelected` is proved equal to it |
| Game.WithoutFromMember | pages/2_Game.py:58-59 | a card survives the deletion exactly when it occurs at a position that is not deleted |
| Game.WithoutFromMembers | pages/2_Game.py:58-59 | the same, for all cards at once |
| Game.WithoutFromDistinct | pages/2_Game.py:58-59 | deleting positions from a duplicate-free board leaves it duplicate-free |
| Game.WithoutFromLength | pages/2_Game.py:58-59 | deleting a set of in-range positions shortens the board by its size |
| Game.DeleteBelowDeleted | pages/2_Game.py:58-59 | `del cards[i]` after deleting only higher positions removes original position i, so descending deletion removes the selected cards |
| Game.Insert | pages/2_Game.py:58 | inserting an index adds exactly that index |
| Game.InsertDescending | pages/2_Game.py:58 | insertion keeps a list strictly descending |
| Game.SortedDescending | pages/2_Game.py:58 | `sorted(selected, reverse=True)` holds the same indices in strictly descending order |
| Game.DescendingBound | pages/2_Game.py:58 | in a descending list below n, the k-th entry is below n - k |
| Game.SortedSelection | pages/2_Game.py:58 | the k-th index of the sorted selection is below the board length minus k, so each deletion is in range |
| Game.DeleteSelected | pages/2_Game.py:58-59 | the deletion loop leaves the board with the selected positions removed and the other cards in order |
| Game.DealtFrom | pages/2_Game.py:58-77 | the board invariant: no repeated cards, board cards are used, used cards are from the deck, 12 cards until the deck is spent, undealt cards in threes; `StartDeal` and `RefillKeepsDealt` prove the deal and the refill keep it |
| Game.StartDeal | pages/2_Game.py:76-77 | a 12-card sample of the deck, recorded as used, satisfies the board invariant with the deck size less 12 cards left |
| Game.FullDeckDeal | pages/2_Game.py:76 | with the 81-card deck, a deal leaves 69 unused cards |
| Game.RemainingIsUnused | pages/2_Game.py:61 | the refill pool, the deck minus the board minus the used cards, is the set of never-used cards |
| Game.Session.SelectedCards | pages/2_Game.py:51 | `[cards[i] for i in selected]`; `Pick` states that its k-th entry is the board card at the k-th selected position |
| Game.Session.Unused | pages/2_Game.py:61 | the refill pool; `RemainingIsUnused` proves it equals `set(ALL_CARDS) - set(cards) - used_cards` after the deletion, and `AcceptSet` calls `PoolAfterDeletion` to draw from it |
| Game.PoolAfterDeletion | pages/2_Game.py:58-61 | on a dealt board, the pool computed after deleting the selected cards is exactly the never-used deck cards |
| Game.Pick | pages/2_Game.py:51 | the selected cards are the board's cards at the selected positions, in selection order |
| Game.KeptCards | pages/2_Game.py:58-59 | deleting three selected positions from a duplicate-free board removes exactly the three selected cards |
| Game.AppendDistinct | pages/2_Game.py:63 | extending a duplicate-free board with distinct new cards not on it keeps it duplicate-free |
| Game.DrawFromPool | pages/2_Game.py:61-62 | a refill draws three cards, or none once the pool is empty, and the pool stays a multiple of three |
| Game.RefillKeepsDealt | pages/2_Game.py:58-64 | after a SET the board stays duplicate-free, within the used cards and at 12 cards until the deck is spent; the selected and earlier removed cards do not return |
| Game.GameOverMeansDeckUsed | pages/2_Game.py:124 | an empty dealt board means every card of the deck has been used |
| Game.Session.Valid | pages/2_Game.py:28-34 | the session invariant: numbered logs, a duplicate-free selection of at most 3 board positions, `DealtFrom` once started, the initial state before; every method keeps it |
| Game.Session.GameOver | pages/2_Game.py:124 | the end test, an empty board after start; `EndOfGame` states that the whole deck is then used |
| Game.Session.constructor | pages/2_Game.py:28-34 | the first visit starts with no game, an empty board, no used cards, no selection and empty logs |
| Game.Session.StartGame | pages/2_Game.py:72-78 | the start button deals 12 distinct deck cards, records exactly them as used and clears the selection |
| Game.Session.ToggleCard | pages/2_Game.py:42-46 | the selection becomes the toggled selection and the session invariant is kept |
| Game.Session.AcceptSet | pages/2_Game.py:54-64 | a success logs one record numbered old length + 1, deletes the selected cards, appends the draw and adds it to the used cards; board size is kept while 3 unused cards remain |
| Game.Session.RejectSet | pages/2_Game.py:65-67 | a failure logs one record numbered old length + 1 and leaves the board and used cards as they were |
| Game.Session.ProcessSelection | pages/2_Game.py:49-69 | the judgment is `is_set` of the selected cards, followed by the success or failure update; the selection is empty afterwards and used cards and removed cards only accumulate |
| Game.Session.EndOfGame | pages/2_Game.py:124-125 | when the board is empty every deck card has been used and none is left to draw |
| Game.Session.BoardHoldsCardNames | pages/2_Game.py:9 | with the card directory's deck, every board card is a card name |
| Game.Session.OnRerun | pages/2_Game.py:84-85 | a selection is judged exactly when it holds three indices, with the verdict and the full success or failure update of `ProcessSelection`; used and removed cards only accumulate; nothing changes otherwise |
| Tutorial.CheckAnswerAndDisplay | pages/1_Tutorial.py:49-56 | gives no verdict while any selection is None, praises exactly when the chosen answers equal the key, and warns otherwise |
| Tutorial.PracticeAgreesWithCheckAnswer | pages/1_Tutorial.py:49-56 | for four answers and a four-entry key, the practice check praises exactly when utils' check_answer does, and warns exactly when check_answer is silent |
| Tutorial.Classify | pages/1_Tutorial.py:18-20 | the answer for three values is "전부 같음" when all are equal, "전부 다름" when all differ, and "2개만 같음" when exactly two agree |
| Tutorial.LabelPositions | pages/1_Tutorial.py:29 | `attribute_labels` is `columns`, and under decode its labels read digits 2, 1, 0 and 3 |
| Tutorial.AnswerKey | pages/1_Tutorial.py:29 | column i of a triple's key answers for the digit that decode reads for label i |
| Tutorial.AttributeClassByDigit | pages/1_Tutorial.py:17-21 | the answer for a decoded attribute is the answer for that attribute's digit |
| Tutorial.AnswerKeyDecoded | pages/1_Tutorial.py:17-21 | each key column is the answer for its label's decoded attribute |
| Tutorial.ClassifyRule | pages/1_Tutorial.py:85-88 | an attribute passes the SET rule exactly when its answer is not "2개만 같음" |
| Tutorial.RuleMatchesIsSet | pages/1_Tutorial.py:85-88 | the stated rule is `is_set`: a triple is a SET exactly when no column of its key is "2개만 같음" |
| Tutorial.ExampleNames | pages/1_Tutorial.py:17-26 | `answers` and `set_type` cover the same three examples |
| Tutorial.ExampleCards | pages/1_Tutorial.py:12-14 | every practice card is a deck card name |
| Tutorial.Set1Key | pages/1_Tutorial.py:18 | the key of example 1 is the answer key of its triple |
| Tutorial.Set2Key | pages/1_Tutorial.py:19 | the key of example 2 is the answer key of its triple |
| Tutorial.NotSetKey | pages/1_Tutorial.py:20 | the key of example 3 is the answer key of its triple |
| Tutorial.ExampleKey | pages/1_Tutorial.py:12-21 | each entry of `answers` is the answer key of its triple of deck cards |
| Tutorial.Verdict | pages/1_Tutorial.py:22-26 | each verdict equals `is_set` of its triple, and says SET exactly when its key has no "2개만 같음" |
| Tutorial.VerdictsAgree | pages/1_Tutorial.py:22-26 | all verdicts of `set_type` agree with `is_set` |
| Tutorial.ExampleDetails | pages/1_Tutorial.py:13-14 | example 2 differs in all four digits; example 3 has two equal values at digit 0 only |
| Tutorial.KeyEarnsTrueVerdict | pages/1_Tutorial.py:98-112 | answering a practice example with its key earns the praise, and the verdict announced is `is_set`'s |
| Tutorial.ImagePath | pages/1_Tutorial.py:68 | an image path is the card directory, a slash, then the card file |
| Tutorial.CardFileOfImagePath | pages/1_Tutorial.py:68 | the card file is read back from its image path, so distinct files get distinct paths |
| Tutorial.ShowcasePaths | pages/1_Tutorial.py:67-77 | each literal image path under a heading is the image path of the card file `Showcase` lists at the same place, and names that file |
| Tutorial.ColorShowcase | pages/1_Tutorial.py:67-68 | the colour triple holds deck cards that differ in colour alone |
| Tutorial.ShapeShowcase | pages/1_Tutorial.py:70-71 | the shape triple holds deck cards that differ in shape alone |
| Tutorial.ShadingShowcase | pages/1_Tutorial.py:73-74 | the shading triple holds deck cards that differ in shading alone |
| Tutorial.NumberShowcase | pages/1_Tutorial.py:76-77 | the number triple holds deck cards that differ in number alone |
| Tutorial.ShowcaseVariesOneAttribute | pages/1_Tutorial.py:67-77 | every showcase triple varies exactly its heading's attribute, holds the other three fixed, and is a SET |

## Left out

- Streamlit rendering is not modelled: page layout, images, buttons, tables, columns, `st.rerun` and `st.stop`. The rerun step is modelled only as `Game.Session.OnRerun`.
- `show_select_table` is a select-box UI in both `utils.py` and `pages/1_Tutorial.py`. The tutorial check takes its result as a list of `Option` values.
- `display_card` is display only.
- `load_random_cards` is a directory listing plus `random.sample`, and no core code uses it.
- `time.time` is not modelled. Elapsed seconds are a parameter, and the start timestamp `start_time` is not stored.
- The `timedelta` formatting of the elapsed-time column is not modelled. A log record holds the seconds.
- `random.sample` is not modelled as a random generator. Each call becomes a caller-supplied outcome constrained by `IsSample`.
- `os.listdir` is not modelled. `ALL_CARDS` is the `deck` parameter of the session, and its sorted order is not modelled because only random samples are ever drawn from it. `Cards.AllCards` lists the names in base-3 order, and nothing is proved about lexicographic order.
- The texts of `st.success`, `st.error` and `st.warning` are not modelled. The model returns which message is shown and with what example number and verdict.
- In the showcase, `Tutorial.ShowcaseImages` holds the literal image paths and `Tutorial.Showcase` the card files they name; `ShowcasePaths` connects the two through `Tutorial.ImagePath`. Displaying the images is not modelled.
- generate_set_cards.py is an HTTP download plus file writes. Only its enumeration of the 81 names is modelled, by `Cards.AllCards`. Its loop-variable names put colour in digit 0; the model follows `decode`, which reads colour from digit 2 and agrees with the tutorial data.
- pages/Records.py and pages/3_Records.py are not modelled. They do CSV reading, plotting and file deletion, and call a plotting function that the shown `utils.py` does not define.
