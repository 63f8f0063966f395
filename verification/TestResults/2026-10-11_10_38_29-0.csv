TestResult.DisplayName,TestResult.Outcome,TestResult.Duration,TestResult.ResourceCount,RandomSeed
MapTimeline.AddressLoader.LoadAddresses (correctness) (assertion batch 28),Passed,00:00:00.7610343,1487403,0
MapTimeline.AddressLoader.LoadAddresses (correctness) (assertion batch 27),Passed,00:00:00.1442470,354942,0
MapTimeline.AddressLoader.LoadAddresses (well-formedness) (assertion batch 2),Passed,00:00:00.1083922,43050,0
MapTimeline.AddressLoader.LoadAddresses (well-formedness) (assertion batch 1),Passed,00:00:00.1083884,32707,0
MapTimeline.AddressLoader.LoadAddresses (correctness) (assertion batch 3),Passed,00:00:00.0796006,61527,0
MapTimeline.AddressLoader.LoadAddresses (correctness) (assertion batch 10),Passed,00:00:00.0792266,70591,0
MapTimeline.AddressLoader.LoadAddresses (correctness) (assertion batch 29),Passed,00:00:00.0780736,111738,0
MapTimeline.AddressLoader.LoadAddresses (correctness) (assertion batch 24),Passed,00:00:00.0749144,104547,0
MapTimeline.AddressLoader.LoadAddresses (correctness) (assertion batch 40),Passed,00:00:00.0709529,81747,0
MapTimeline.AddressLoader.LoadAddresses (correctness) (assertion batch 30),Passed,00:00:00.0672885,113179,0
MapTimeline.AddressLoader.LoadAddresses (correctness) (assertion batch 4),Passed,00:00:00.0643897,87645,0
MapTimeline.AddressLoader.LoadAddresses (well-formedness) (assertion batch 5),Passed,00:00:00.0638269,45382,0
MapTimeline.AddressLoader.LoadAddresses (correctness) (assertion batch 31),Passed,00:00:00.0595714,112327,0
MapTimeline.AddressLoader.LoadAddresses (correctness) (assertion batch 11),Passed,00:00:00.0591033,74728,0
MapTimeline.AddressLoader.LoadAddresses (correctness) (assertion batch 38),Passed,00:00:00.0575969,79787,0
MapTimeline.AddressLoader.LoadAddresses (correctness) (assertion batch 14),Passed,00:00:00.0570898,68121,0
MapTimeline.AddressLoader.LoadAddresses (correctness) (assertion batch 33),Passed,00:00:00.0569536,68073,0
MapTimeline.AddressLoader.LoadAddresses (correctness) (assertion batch 22),Passed,00:00:00.0569198,103544,0
MapTimeline.AddressLoader.LoadAddresses (well-formedness) (assertion batch 6),Passed,00:00:00.0560864,45446,0
MapTimeline.AddressLoader.LoadAddresses (correctness) (assertion batch 23),Passed,00:00:00.0554611,104309,0
MapTimeline.AddressLoader.LoadAddresses (correctness) (assertion batch 25),Passed,00:00:00.0548627,104830,0
MapTimeline.AddressLoader.LoadAddresses (correctness) (assertion batch 41),Passed,00:00:00.0543742,97460,0
MapTimeline.AddressLoader.LoadAddresses (correctness) (assertion batch 42),Passed,00:00:00.0540615,80902,0
MapTimeline.AddressLoader.LoadAddresses (correctness) (assertion batch 9),Passed,00:00:00.0537214,66258,0
MapTimeline.AddressLoader.LoadAddresses (correctness) (assertion batch 39),Passed,00:00:00.0534709,81229,0
MapTimeline.AddressLoader.LoadAddresses (correctness) (assertion batch 20),Passed,00:00:00.0532391,71392,0
MapTimeline.AddressLoader.LoadAddresses (correctness) (assertion batch 15),Passed,00:00:00.0530666,78596,0
MapTimeline.AddressLoader.LoadAddresses (correctness) (assertion batch 12),Passed,00:00:00.0520007,66928,0
MapTimeline.AddressLoader.LoadAddresses (correctness) (assertion batch 17),Passed,00:00:00.0499650,81036,0
MapTimeline.AddressLoader.LoadAddresses (correctness) (assertion batch 26),Passed,00:00:00.0499339,105107,0
MapTimeline.AddressLoader.LoadAddresses (correctness) (assertion batch 6),Passed,00:00:00.0496970,57478,0
MapTimeline.AddressLoader.LoadAddresses (well-formedness) (assertion batch 7),Passed,00:00:00.0485532,58893,0
MapTimeline.AddressLoader.LoadAddresses (correctness) (assertion batch 34),Passed,00:00:00.0479791,90004,0
MapTimeline.AddressLoader.LoadAddresses (correctness) (assertion batch 16),Passed,00:00:00.0467644,65107,0
MapTimeline.AddressLoader.LoadAddresses (well-formedness) (assertion batch 9),Passed,00:00:00.0457420,62290,0
MapTimeline.AddressLoader.LoadAddresses (well-formedness) (assertion batch 4),Passed,00:00:00.0428953,43176,0
MapTimeline.AddressLoader.LoadAddresses (correctness) (assertion batch 7),Passed,00:00:00.0424959,49192,0
MapTimeline.AddressLoader.LoadAddresses (correctness) (assertion batch 21),Passed,00:00:00.0420840,85810,0
MapTimeline.AddressLoader.LoadAddresses (well-formedness) (assertion batch 8),Passed,00:00:00.0405392,58945,0
MapTimeline.AddressLoader.LoadAddresses (well-formedness) (assertion batch 3),Passed,00:00:00.0398220,43113,0
MapTimeline.AddressLoader.LoadAddresses (correctness) (assertion batch 37),Passed,00:00:00.0394162,79485,0
MapTimeline.AddressLoader.LoadAddresses (correctness) (assertion batch 13),Passed,00:00:00.0392957,67138,0
MapTimeline.AddressLoader.LoadAddresses (correctness) (assertion batch 19),Passed,00:00:00.0371487,71547,0
MapTimeline.AddressLoader.LoadAddresses (correctness) (assertion batch 36),Passed,00:00:00.0369329,69262,0
MapTimeline.AddressLoader.LoadAddresses (correctness) (assertion batch 32),Passed,00:00:00.0357968,66359,0
MapTimeline.AddressLoader.LoadAddresses (correctness) (assertion batch 5),Passed,00:00:00.0355243,49018,0
MapTimeline.AddressLoader.LoadAddresses (correctness) (assertion batch 2),Passed,00:00:00.0353783,36355,0
MapTimeline.AddressLoader.LoadAddresses (correctness) (assertion batch 35),Passed,00:00:00.0339869,68818,0
MapTimeline.AddressLoader.LoadAddresses (correctness) (assertion batch 18),Passed,00:00:00.0329062,71118,0
MapTimeline.AddressLoader.LoadAddresses (correctness) (assertion batch 8),Passed,00:00:00.0274173,49318,0
MapTimeline.AddressLoader.LoadAddresses (correctness) (assertion batch 1),Passed,00:00:00.0273783,37721,0
